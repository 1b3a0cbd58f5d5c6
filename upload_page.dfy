/**
 * The submit cycle of App.js (`handleSubmit`): the button is disabled while
 * `loading`, `loading` is set before the POST and cleared after it whatever
 * the outcome, and on a response `data` is replaced before `past` is parsed.
 * A failed POST or a throwing `JSON.parse` leaves what it has not yet
 * replaced untouched.
 */
module UploadPage {
  import opened Wrappers
  import opened ClientForms
  import opened ForecastView

  /** The string-valued fields of `response.data`. */
  type ResponseData = map<string, string>

  /**
   * `JSON.parse(parsedData[key])`, with `parse` standing for `JSON.parse` on a
   * string. An absent field is `undefined`, on which `JSON.parse` throws (None).
   */
  function ParseField(body: ResponseData, key: string, parse: string -> Option<seq<Row>>): (r: Option<seq<Row>>)
    ensures key !in body ==> r.None?
    ensures key in body ==> r == parse(body[key])
  {
    if key in body then parse(body[key]) else None
  }

  /** The state `App` keeps with `useState`, apart from the form inputs. */
  class ForecastUploader {
    var data: seq<Row>
    var pastData: seq<Row>
    var loading: bool

    constructor ()
      ensures data == [] && pastData == [] && !loading
    {
      data := [];
      pastData := [];
      loading := false;
    }

    /** The results section rendered from the current state. */
    function Results(): Option<ForecastView.Results>
      reads this
    {
      ResultsSection(pastData, data)
    }

    /**
     * A click on the submit button. While `loading` the button is disabled and
     * nothing happens; with an empty required input the browser refuses to
     * submit; otherwise `loading` becomes true and the form is posted.
     */
    method Submit(form: FormInputs) returns (sent: Option<FormRequest>)
      modifies this
      ensures old(loading) ==> sent == None && loading
      ensures !old(loading) && !Filled(form) ==> sent == None && !loading
      ensures !old(loading) && Filled(form) ==> sent == Some(ToRequest(form)) && loading
      ensures data == old(data) && pastData == old(pastData)
      ensures Results() == old(Results())
    {
      if loading {
        return None;
      }
      if !Filled(form) {
        return None;
      }
      loading := true;
      sent := Some(ToRequest(form));
    }

    /**
     * The end of the POST sent by `Submit`: the try, catch and finally blocks.
     */
    method Complete(outcome: Outcome<ResponseData>, parse: string -> Option<seq<Row>>)
      requires loading
      modifies this
      ensures !loading
      ensures outcome.Failed? ==> data == old(data) && pastData == old(pastData)
      ensures outcome.Failed? ==> Results() == old(Results())
      ensures outcome.Received? && ParseField(outcome.data, "predicted", parse).None? ==>
        data == old(data) && pastData == old(pastData)
      ensures outcome.Received? && ParseField(outcome.data, "predicted", parse).Some? ==>
        data == ParseField(outcome.data, "predicted", parse).value
      ensures outcome.Received? && ParseField(outcome.data, "predicted", parse).Some? ==>
        pastData == (match ParseField(outcome.data, "past", parse)
                     case Some(rows) => rows
                     case None => old(pastData))
    {
      match outcome {
        case Failed =>
        case Received(body) =>
          var predicted := ParseField(body, "predicted", parse);
          if predicted.Some? {
            data := predicted.value;
            var past := ParseField(body, "past", parse);
            if past.Some? {
              pastData := past.value;
            }
          }
      }
      loading := false;
    }
  }

  /**
   * A full cycle: a second click while the first POST is in flight sends
   * nothing, and a response whose "past" does not parse leaves the new
   * forecast next to the old history.
   */
  method SubmitCycle(form: FormInputs, body: ResponseData, parse: string -> Option<seq<Row>>)
    returns (first: Option<FormRequest>, second: Option<FormRequest>, page: ForecastUploader)
    requires Filled(form)
    requires ParseField(body, "predicted", parse).Some? && ParseField(body, "past", parse).None?
    ensures first.Some? && second.None?
    ensures !page.loading
    ensures page.data == ParseField(body, "predicted", parse).value && page.pastData == []
    ensures page.Results().Some? <==> |page.data| > 0
  {
    page := new ForecastUploader();
    first := page.Submit(form);
    second := page.Submit(form);
    page.Complete(Received(body), parse);
  }
}
