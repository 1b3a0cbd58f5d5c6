/**
 * The submit cycle of ForecastApp.js (`handleSubmit`): an input guard that
 * only sets `error`, then `loading` true and `error` cleared before the POST,
 * "Error fetching forecast data." on failure, the response saved as
 * forecast.json on success, and `loading` false after either.
 */
module DownloadPage {
  import opened Wrappers
  import opened ClientForms

  const InputsMissing := "Please provide all inputs."
  const FetchFailed := "Error fetching forecast data."

  /** A file handed to `saveAs`: its name and its text. */
  datatype SavedFile = SavedFile(name: string, text: string)

  /** The state `ForecastApp` keeps with `useState`, apart from the form inputs. */
  class ForecastDownloader {
    var loading: bool
    var error: string

    /** While a request is in flight no error is shown. */
    ghost predicate Valid()
      reads this
    {
      loading ==> error == ""
    }

    constructor ()
      ensures Valid() && !loading && error == ""
    {
      loading := false;
      error := "";
    }

    /**
     * A click on the submit button. While `loading` it is disabled; with a
     * missing input only `error` changes and nothing is sent; otherwise
     * `loading` is set, `error` cleared and the form posted.
     */
    method Submit(form: FormInputs) returns (sent: Option<FormRequest>)
      requires Valid()
      modifies this
      ensures Valid()
      ensures old(loading) ==> sent == None && loading && error == old(error)
      ensures !old(loading) && !Filled(form) ==> sent == None && !loading && error == InputsMissing
      ensures !old(loading) && Filled(form) ==> sent == Some(ToRequest(form)) && loading && error == ""
    {
      if loading {
        return None;
      }
      if !Filled(form) {
        error := InputsMissing;
        return None;
      }
      loading := true;
      error := "";
      sent := Some(ToRequest(form));
    }

    /**
     * The end of the POST sent by `Submit`. The received text stands for
     * `JSON.stringify(response.data, null, 2)`.
     */
    method Complete(outcome: Outcome<string>) returns (saved: Option<SavedFile>)
      requires Valid() && loading
      modifies this
      ensures Valid() && !loading
      ensures outcome.Failed? ==> saved == None && error == FetchFailed
      ensures outcome.Received? ==> saved == Some(SavedFile("forecast.json", outcome.data)) && error == ""
    {
      match outcome {
        case Received(text) =>
          saved := Some(SavedFile("forecast.json", text));
        case Failed =>
          saved := None;
          error := FetchFailed;
      }
      loading := false;
    }
  }
}
