# Sales Predictor — a Dafny model of its forecasting logic

Sales Predictor lets a user upload a sales time series. A Flask service fits
a SARIMA or Holt-Winters model to it and returns a forecast. A React page
shows the forecast as a table and a chart and offers it as a CSV download.
This project models the parts of that system that make decisions:

- **The SARIMA order search** shared by `train_sarima_model`
  (Sales_Predictor_Model/app.py) and `train_model` (app.py). It builds the
  (p,d,q) grid over {0,1}³ and the seasonal grid with period 12. It tries the
  64 pairs with the non-seasonal order in the outer loop. A fit that raises is
  skipped. It keeps the first pair with strictly lowest AIC. Fitting is an
  oracle that returns the AIC, or None when the fit raises
  (`OrderSearch`).
- **`read_data`**: the file-suffix dispatch (".csv", then ".xls"/".xlsx",
  otherwise ValueError) of Sales_Predictor_Model/app.py. The CSV-only
  variant is in app.py. Both convert the date column, keep the date and value
  columns, sort by date and index by date (`Frames`, `SarimaService`,
  `FlaskService`).
- **The Flask endpoints**. Each one answers 400 `{"error": "Missing file or
  parameters"}` when a field is missing, before any processing. Any exception
  gives 500 `{"error": str(e)}`. `/forecast/sarima` and
  `/forecast/holt-winters` answer `{past, predicted}`. The past columns are
  renamed "Order Date" and "Sales", and the forecast has 120 steps.
  `/forecast` (monthly, 120 steps) and `/dayforecast` (daily, 30 steps)
  answer with the bare forecast records (`Server`, `SarimaService`,
  `FlaskService`).
- **The client's result shaping** in App.js. The chart labels are the
  history dates followed by the forecast indices. There is one "Forecast Data"
  dataset with one point per forecast row. The table has one row per forecast
  row. The CSV has two fixed columns and is named forecast.csv. The results
  section appears only when there are forecast rows (`ForecastView`).
- **The two submit state machines**, modelled as classes. The network outcome
  is a parameter. In App.js (`UploadPage.ForecastUploader`) the button is
  disabled while `loading`. `loading` wraps the request. A failure keeps the
  old results. `data` is replaced before `past` is parsed. In ForecastApp.js
  (`DownloadPage.ForecastDownloader`) the input guard only sets `error`. The
  `error` and `loading` flags move through the try, catch and finally blocks,
  and forecast.json is saved on success.

Every library call is a field of `Server.Library`: the pandas readers,
`to_datetime`, `resample(...).mean()`, the SARIMAX fit and its AIC, the final
fit, `get_forecast`, and Holt-Winters. Each such field is a total function
that returns a result or the exception raised. On the client, `JSON.parse` is
a parameter, and so is the outcome of the POST.

App.js does not clear its previous results when a new request is sent. It
keeps them on failure, and after a response it replaces `data` before it
parses `past`.

## Model

| member | source | states |
|---|---|---|
| `OrderSearch.ProductMembers` | Sales_Predictor_Model/app.py:41-42 | `itertools.product(a, b, c)` holds exactly the triples drawn from `a`, `b`, `c`; it has \|a\|·\|b\|·\|c\| elements |
| `OrderSearch.ProductSorted` | Sales_Predictor_Model/app.py:41-42 | with strictly increasing ranges the product lists its triples in strictly increasing lexicographic order |
| `OrderSearch.PdqIsBinaryTriples` | Sales_Predictor_Model/app.py:41-42 | `pdq` is the 8 triples of {0,1}³, in lexicographic order |
| `OrderSearch.SeasonalPdqFollowsPdq` | Sales_Predictor_Model/app.py:43 | `seasonal_pdq` is `pdq` with 12 appended to each triple, in the same order |
| `OrderSearch.CandidateAt` | Sales_Predictor_Model/app.py:49-50 | the nested loops visit `(pdq[i], seasonal[j])` at position i·\|seasonal\|+j of the visiting order, and \|pdq\|·\|seasonal\| pairs in all |
| `OrderSearch.GridVisitsAll` | Sales_Predictor_Model/app.py:41-50 | the search visits all 64 pairs, `pdq` in the outer loop and `seasonal_pdq` in the inner one |
| `OrderSearch.SelectNoneIffAllFail` | Sales_Predictor_Model/app.py:45-59 | nothing is selected exactly when every fit raised |
| `OrderSearch.SelectedIsFirstMinimum` | Sales_Predictor_Model/app.py:45-59 | a selected pair fitted, has the minimum AIC over all successful fits, and a strictly lower AIC than every earlier successful fit |
| `OrderSearch.FirstMinimumIsSelected` | Sales_Predictor_Model/app.py:45-59 | conversely, the first pair with the minimum AIC is the one selected: ties go to the earliest visited pair |
| `OrderSearch.FirstMinimumUnique` | Sales_Predictor_Model/app.py:54 | the strict `<` admits at most one first minimum |
| `OrderSearch.SearchOrders` | Sales_Predictor_Model/app.py:45-59 | the best-so-far loop, skipping raising fits and replacing only on a strictly lower AIC, ends with the selection over all pairs in visiting order |
| `OrderSearch.SearchGrid` | Sales_Predictor_Model/app.py:41-59 | over the fixed grid: None exactly when all 64 fits raise, otherwise the first pair of minimum AIC |
| `Frames.ToDatetime` | Sales_Predictor_Model/app.py:31 | converting the date column with the per-cell date oracle succeeds exactly when every cell converts, keeps one date per row in order, and otherwise raises the first failing row's conversion error |
| `Frames.SortByDate` | Sales_Predictor_Model/app.py:32 | `sort_values(date_col)` yields the same rows (as a multiset) in ascending date order |
| `Frames.SortKeepsRows` | Sales_Predictor_Model/app.py:32 | sorting neither adds nor drops a row |
| `Frames.SelectDateValue` | Sales_Predictor_Model/app.py:31-33 | a missing date column raises KeyError first, then a date that does not convert, then a missing value column (KeyError), then a value column equal to the date column (the ambiguous sort key raises ValueError); the frame succeeds exactly when none of these occurs; it then holds only the date and value columns, is indexed by date, is sorted by date, and holds every row |
| `Server.Reply` | Sales_Predictor_Model/app.py:111-113 | status 200 exactly when the try block returns, with its body; otherwise 500 with `{"error": str(e)}` |
| `Server.Endpoint` | Sales_Predictor_Model/app.py:87-88 | 400 with "Missing file or parameters" exactly when file, date_col or value_col is absent, whatever the processing would do; otherwise the reply to the processing; status is always 200, 400 or 500 |
| `Server.ForecastRecords` | Sales_Predictor_Model/app.py:100 | one forecast record per step, in order, with exactly the keys "index" and "Predicted Value" |
| `Server.PastRecords` | Sales_Predictor_Model/app.py:102-104 | one record per row of the read frame, in order, with the columns renamed to exactly "Order Date" and "Sales" |
| `Server.PastRecordsAscending` | Sales_Predictor_Model/app.py:102-104 | records of a date-sorted frame list their "Order Date"s in ascending order |
| `Server.AllFitsFailLeaveOrdersUnset` | Sales_Predictor_Model/app.py:46-61 | when every fit raises, the final SARIMAX is built with `order=None` and `seasonal_order=None` |
| `Server.FirstMinimumIsTrained` | Sales_Predictor_Model/app.py:54-61 | otherwise the final SARIMAX is built with the first pair of minimum AIC |
| `SarimaService.EndsWithIffSplit` | Sales_Predictor_Model/app.py:24 | a name ends with a suffix exactly when it is some prefix followed by that suffix |
| `SarimaService.ReaderFor` | Sales_Predictor_Model/app.py:24-29 | ".csv" picks the CSV reader; otherwise ".xls" or ".xlsx" picks the Excel reader; otherwise ValueError "Unsupported file format. Please upload a CSV or Excel file." |
| `SarimaService.ReaderForExamples` | Sales_Predictor_Model/app.py:24-29 | only the last suffix counts ("a.xlsx.csv" is CSV, "a.csv.xlsx" is Excel) and the test is case-sensitive ("A.CSV" is refused) |
| `SarimaService.ReadData` | Sales_Predictor_Model/app.py:22-34 | an unsupported name raises before the file is read; otherwise the chosen reader's table goes through the column selection; a result is indexed by the date column and sorted by date |
| `SarimaService.SarimaPipeline` | Sales_Predictor_Model/app.py:94-109 | succeeds exactly when `read_data`, the month-start ('MS') resample, the grid-search SARIMAX and its 120-step forecast all return; a success is `{past, predicted}` with `past` the renamed records of the read frame and `predicted` that forecast; otherwise it raises the exception of the first stage that raised; with a forecast oracle that honours `steps`, there are 120 records |
| `SarimaService.HoltWintersPipeline` | Sales_Predictor_Model/app.py:125-140 | succeeds exactly when `read_data`, the month-start resample, the Holt-Winters fit and its 120-step forecast all return; a success is `{past, predicted}` with the renamed history and that forecast; otherwise it raises the exception of the first stage that raised |
| `SarimaService.SarimaEndpoint` | Sales_Predictor_Model/app.py:84-113 | 400 exactly when a field is missing; otherwise the reply to the SARIMA pipeline: 200 with `past` from the uploaded frame and `predicted` the 120-step grid-search SARIMAX forecast of its monthly series when every stage returns, and 500 with `{"error": str(e)}` of the first exception otherwise; the status is always 200, 400 or 500 |
| `SarimaService.HoltWintersEndpoint` | Sales_Predictor_Model/app.py:115-144 | the same for `/forecast/holt-winters`: 200 with the 120-step Holt-Winters forecast of the monthly series when every stage returns, 500 with `str(e)` of the first exception otherwise |
| `SarimaService.TrainSarimaModel` | Sales_Predictor_Model/app.py:40-64 | the final fit uses None for both orders when every grid fit raised, and otherwise the first pair of minimum AIC |
| `FlaskService.ReadData` | app.py:9-14 | the upload is always read as CSV, with no suffix test; a result is indexed by the date column and sorted by date |
| `FlaskService.ReadDataAgreesOnCsv` | app.py:9-14 | for a ".csv" upload both services' `read_data` give the same frame |
| `FlaskService.ReadDataIgnoresSuffix` | app.py:10 | for any other name this service still parses the upload as CSV, where the other service refuses it or reads it as Excel |
| `FlaskService.ForecastPipeline` | app.py:65-73 | succeeds exactly when `read_data`, the resample at `freq`, the grid-search SARIMAX and its `steps`-step forecast all return; a success is the bare records string (no "past" key, no wrapping object) of that forecast with "index" and "Predicted Value" records; otherwise it raises the exception of the first stage that raised |
| `FlaskService.ForecastRoute` | app.py:56-75 | `/forecast`: 400 exactly when a field is missing; otherwise the reply to the pipeline with month-start ('MS') resampling and 120 steps: 200 with the bare forecast records, or 500 with `str(e)` of the first exception; the status is always 200, 400 or 500 |
| `FlaskService.DayForecastRoute` | app.py:77-96 | `/dayforecast`: the same, with the series resampled daily ('D') and a 30-step forecast |
| `FlaskService.TrainModel` | app.py:21-45 | the final fit uses None for both orders when every grid fit raised, and otherwise the first pair of minimum AIC |
| `ForecastView.AsHistoryRow` | sales_predictor_frontend/src/App.js:97 | the re-keyed forecast row's "Order Date" is the forecast row's "index" |
| `ForecastView.ChartLabels` | sales_predictor_frontend/src/App.js:96-98 | \|pastData\|+\|data\| labels: every past row's "Order Date" in order, then every forecast row's "index" in order |
| `ForecastView.BuildChartData` | sales_predictor_frontend/src/App.js:95-121 | one dataset, "Forecast Data", with one point per forecast row in order, x from "index" and y from "Predicted Value" |
| `ForecastView.HistoryIsNotPlotted` | sales_predictor_frontend/src/App.js:100-109 | the past rows never change the plotted datasets (the history series is commented out) |
| `ForecastView.PointsAlignWithForecastLabels` | sales_predictor_frontend/src/App.js:96-115 | the k-th plotted point's x is the label at position \|pastData\|+k |
| `ForecastView.TableRows` | sales_predictor_frontend/src/App.js:196-201 | one table row per forecast row, in order, showing `index` and "Predicted Value" |
| `ForecastView.ExportCsv` | sales_predictor_frontend/src/App.js:206-212 | the CSV is forecast.csv with exactly the header "Index", "Predicted Value" and one record per forecast row, in order, reading "index" then "Predicted Value" |
| `ForecastView.CsvMatchesTable` | sales_predictor_frontend/src/App.js:188-211 | the CSV shows row by row exactly what the on-screen table shows, under the same header |
| `ForecastView.ResultsSection` | sales_predictor_frontend/src/App.js:185-227 | the table, download buttons and chart exist exactly when `data` is non-empty |
| `ForecastView.ExportExample` | sales_predictor_frontend/src/App.js:206-212 | two forecast rows export as the fixed header and the two records, in order |
| `UploadPage.ParseField` | sales_predictor_frontend/src/App.js:78-79 | an absent "predicted" or "past" field makes `JSON.parse` throw; a present one is parsed |
| `UploadPage.ForecastUploader.constructor` | sales_predictor_frontend/src/App.js:32-37 | the page starts with no forecast, no history and `loading` false |
| `UploadPage.ForecastUploader.Submit` | sales_predictor_frontend/src/App.js:147-180 | while `loading` the disabled button sends nothing; an empty required input blocks the submit; otherwise `loading` becomes true and the three fields are posted; `data`, `pastData` and the rendered results are untouched |
| `UploadPage.ForecastUploader.Complete` | sales_predictor_frontend/src/App.js:60-84 | `loading` ends false; a failure keeps `data`, `pastData` and the rendered results; a parsed "predicted" replaces `data`, and `pastData` is replaced only if "past" also parses |
| `UploadPage.SubmitCycle` | sales_predictor_frontend/src/App.js:51-85 | a second click while the first request is in flight sends nothing, and a malformed "past" leaves the new forecast next to the old history |
| `DownloadPage.ForecastDownloader.constructor` | sales_predictor_frontend/src/ForecastApp.js:10-11 | the form starts with `loading` false and no error |
| `DownloadPage.ForecastDownloader.Submit` | sales_predictor_frontend/src/ForecastApp.js:17-30 | while `loading` nothing is sent; a missing input sets "Please provide all inputs." and leaves `loading` alone; otherwise `loading` is set, `error` cleared and the fields posted; no error is shown while loading |
| `DownloadPage.ForecastDownloader.Complete` | sales_predictor_frontend/src/ForecastApp.js:32-51 | `loading` ends false; a failure sets "Error fetching forecast data." and saves nothing; a success saves forecast.json and leaves `error` empty |

## Left out

- pandas is not modelled. `read_csv`, `read_excel`, the date parsing of `to_datetime` and `resample('MS')`/`resample('D')` followed by `.mean()` are oracles, because they are library behaviour outside this repository.
- `Frames.SortByDate`: the order of rows that share a date is pandas' choice. The model keeps their input order, and its contract promises only ascending dates and the same rows.
- `Frames.KeyError`: pandas words the KeyError of the two-column selection differently from a single missing key. The model uses the single-key text for both.
- `read_data` updates its frame in place. The model rebinds a frame value instead, because no other reference to that frame exists.
- `Frames.ToDatetime`: `pd.to_datetime` is modelled as a date oracle applied to one cell at a time, with no NaT. So the model does not capture three things. A blank cell becomes NaT without raising, sorts last, and serializes as a null "Order Date". Since pandas 2 the format is inferred from the first non-null cell, so whether row k converts can depend on earlier rows. The error text names the failing position.
- `Frames.SelectDateValue`: the ValueError text for a value column equal to the date column follows pandas' wording for a non-unique sort key, which is library behaviour rather than code of this repository.
- statsmodels is not modelled. SARIMAX fitting and its AIC, the final fit, `get_forecast`, `conf_int` and Holt-Winters are oracles. An AIC of +inf or NaN is not modelled: an AIC is a real number or the fit raised.
- Serialization is not modelled: `to_json(orient="records", date_format="iso")`, `jsonify`, and ISO date text. Timestamps stay abstract instants, and records are ordered key/value lists.
- HTTP transport, CORS, the flask_limiter rate limits, the axios 300-second timeout and the `__main__` server start are not modelled. They are infrastructure.
- `downloadExcel` (App.js:87-92) is not modelled. It only writes an XLSX workbook through a library. react-csv's text serialization, Chart.js rendering and its time-scale options are not modelled either.
- The input change handlers and the JSX layout are not modelled. The current form inputs are a parameter of `Submit`.
- `JSON.parse` yielding something other than an array of objects is not modelled. The model's parse result is always a row list or a throw.
- `Blob`, `saveAs` and the pretty-printing of `JSON.stringify(response.data, null, 2)` are not modelled. The saved text is taken as given.
- React's asynchronous re-rendering is not modelled. A click (`Submit`) and the end of the request (`Complete`) are each one atomic step.
- The exchange between App.js and the server it posts to (`/forecast`, whose reply has no "past" or "predicted" key) is not modelled. Each side is modelled on its own.
