/**
 * What the two React forms share: the three inputs, the multipart request
 * they send (fields "file", "date_col", "value_col"), and the outcome of the
 * POST, which the browser decides.
 */
module ClientForms {
  import opened Wrappers

  /** A file chosen in the file input, by name. */
  datatype FileRef = FileRef(name: string)

  /** The form's current inputs: the chosen file (if any) and the two column names. */
  datatype FormInputs = FormInputs(file: Option<FileRef>, dateCol: string, valueCol: string)

  /** The `FormData` posted: "file", "date_col" and "value_col", verbatim. */
  datatype FormRequest = FormRequest(file: FileRef, dateCol: string, valueCol: string)

  /** How a POST ends: axios throws (network error, timeout, non-2xx), or `response.data` arrives. */
  datatype Outcome<T> = Failed | Received(data: T)

  /**
   * A file is chosen and both column names are non-empty: the condition
   * ForecastApp.js tests with `!file || !dateCol || !valueCol`, and that the
   * `required` inputs of App.js impose before the browser lets the form submit.
   */
  predicate Filled(form: FormInputs)
  {
    form.file.Some? && form.dateCol != "" && form.valueCol != ""
  }

  /** The request a filled form sends. */
  function ToRequest(form: FormInputs): FormRequest
    requires Filled(form)
  {
    FormRequest(form.file.value, form.dateCol, form.valueCol)
  }
}
