/** The `useGoogleSheetData` hook: the four pieces of state it exposes and
    the transitions of one `fetchData` call. How the sheets request settled
    is an input. */
module SheetDataHook {
  import opened Js
  import Text

  const DefaultRange := "Form Responses 1"
  const UnknownErrorMessage := "Unknown error occurred"

  /** A form response row: column header to cell text. */
  type FormResponse = map<string, string>

  /** The parsed reply body: unparsable (with the thrown error's message,
      `None` for a non-`Error` value), an object with an `error` key, or a
      sheet whose `headers`/`data` may be missing. */
  datatype SheetResult =
    | Unparsable(thrown: Option<string>)
    | ErrorResult(error: Scalar)
    | SheetResult(headers: Option<seq<string>>, data: Option<seq<FormResponse>>)

  /** How `fetch` settled: rejected, or a response with its status. */
  datatype SheetsReply =
    | Rejected(message: Option<string>)
    | Response(ok: bool, status: nat, result: SheetResult)

  datatype SheetRequest = SheetRequest(sheetId: string, range: string)

  /** Where a started fetch ends: an error message, or new headers and data. */
  datatype FetchOutcome = Failed(message: string) | Loaded(headers: seq<string>, data: seq<FormResponse>)

  function HttpErrorMessage(status: nat): string {
    "HTTP error! status: " + Text.Decimal(status)
  }

  /** The message set for a thrown value. */
  function ThrownMessage(m: Option<string>): string {
    if m.Some? then m.value else UnknownErrorMessage
  }

  /** The outcome of a fetch that was started. */
  function Outcome(reply: SheetsReply): (o: FetchOutcome)
    ensures o.Loaded? <==> reply.Response? && reply.ok && reply.result.SheetResult?
    ensures reply.Response? && !reply.ok ==> o == Failed(HttpErrorMessage(reply.status))
  {
    match reply
    case Rejected(m) => Failed(ThrownMessage(m))
    case Response(ok, status, result) =>
      if !ok then Failed(HttpErrorMessage(status))
      else match result
        case Unparsable(m) => Failed(ThrownMessage(m))
        case ErrorResult(e) => Failed(if e.Str? then e.s else UnknownErrorMessage)
        case SheetResult(h, d) => Loaded(h.GetOr([]), d.GetOr([]))
  }

  /** An `error` key decides the message: its text when it is a string,
      otherwise the generic message; a string error of "" is still an error. */
  lemma ErrorResultMessage(status: nat, e: Scalar)
    ensures Outcome(Response(true, status, ErrorResult(e))) == Failed(if e.Str? then e.s else UnknownErrorMessage)
    ensures Outcome(Response(true, status, ErrorResult(Str("")))).Failed?
  {
  }

  /** Distinct statuses give distinct HTTP error messages. */
  lemma HttpErrorMessageInjective(a: nat, b: nat)
    requires HttpErrorMessage(a) == HttpErrorMessage(b)
    ensures a == b
  {
    var prefix := "HTTP error! status: ";
    assert Text.Decimal(a) == HttpErrorMessage(a)[|prefix|..];
    assert Text.Decimal(b) == HttpErrorMessage(b)[|prefix|..];
    Text.DecimalInjective(a, b);
  }

  class SheetData {
    const sheetId: Option<string>
    const range: string
    var data: seq<FormResponse>
    var headers: seq<string>
    var loading: bool
    var error: Option<string>

    /** The initial state: nothing loaded, loading, no error. */
    constructor(sheetId: Option<string>, range: Option<string>)
      ensures this.sheetId == sheetId && this.range == range.GetOr(DefaultRange)
      ensures data == [] && headers == [] && loading && error == None
    {
      this.sheetId := sheetId;
      this.range := range.GetOr(DefaultRange);
      data, headers, loading, error := [], [], true, None;
    }

    /** `fetchData` up to its `await`: without a sheet id only `loading`
        drops and nothing is requested; otherwise loading starts, the error
        clears, and the sheet is requested. */
    method BeginFetch() returns (request: Option<SheetRequest>)
      modifies this
      ensures data == old(data) && headers == old(headers)
      ensures !Present(sheetId) ==> request == None && !loading && error == old(error)
      ensures Present(sheetId) ==> request == Some(SheetRequest(sheetId.value, range)) && loading && error == None
    {
      if !Present(sheetId) {
        loading := false;
        return None;
      }
      loading := true;
      error := None;
      request := Some(SheetRequest(sheetId.value, range));
    }

    /** `fetchData` after its `await`: a failure sets `error` and keeps the
        data, a success replaces headers and data; `loading` ends false. */
    method CompleteFetch(reply: SheetsReply)
      modifies this
      ensures !loading
      ensures Outcome(reply).Failed? ==> error == Some(Outcome(reply).message) && data == old(data) && headers == old(headers)
      ensures Outcome(reply).Loaded? ==> error == old(error) && headers == Outcome(reply).headers && data == Outcome(reply).data
    {
      match Outcome(reply) {
        case Failed(message) =>
          error := Some(message);
        case Loaded(h, d) =>
          headers := h;
          data := d;
      }
      loading := false;
    }

    /** A whole `fetchData` call, with the request settling as `reply`. */
    method FetchData(reply: SheetsReply) returns (request: Option<SheetRequest>)
      modifies this
      ensures !loading
      ensures !Present(sheetId) ==> request == None && data == old(data) && headers == old(headers) && error == old(error)
      ensures Present(sheetId) ==> request == Some(SheetRequest(sheetId.value, range))
      ensures Present(sheetId) && Outcome(reply).Failed? ==>
        error == Some(Outcome(reply).message) && data == old(data) && headers == old(headers)
      ensures Present(sheetId) && Outcome(reply).Loaded? ==>
        error == None && headers == Outcome(reply).headers && data == Outcome(reply).data
    {
      request := BeginFetch();
      if request.Some? {
        CompleteFetch(reply);
      }
    }
  }
}
