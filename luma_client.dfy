/** The Luma client library: the whole guest list of an event, or one guest
    looked up by e-mail. The HTTP call is a parameter `fetch` from request
    to reply; the API key comes from the environment as `apiKey`. */
module LumaClient {
  import opened Js
  import Text

  const MissingEventIdMessage := "Missing Luma event_api_id"
  const MissingApiKeyMessage := "Missing NEXT_PUBLIC_LUMA_API_KEY"
  const DefaultGuestLimit: nat := 5000

  /** A guest object as Luma sends it; every field is read through `?.`. */
  datatype RawGuest<A> = RawGuest(
    name: Option<string>, fullName: Option<string>, email: Option<string>,
    ticketType: Option<string>, ticketName: Option<string>,
    checkedIn: Option<bool>, answers: Option<A>)

  /** The library's `LumaGuest`. */
  datatype LumaGuest<A> = LumaGuest(
    name: Option<string>, email: Option<string>, ticketType: Option<string>,
    checkedIn: bool, answers: Option<A>)

  datatype ListRequest = ListRequest(eventApiId: string, paginationLimit: string, apiKey: string)
  datatype GuestRequest = GuestRequest(eventApiId: string, email: string, apiKey: string)

  /** A parsed body: `Malformed` when `response.json()` throws. `entries` is
      `None` when missing or `null`; an element is `None` when it is `null`. */
  datatype ListBody<A> = ListMalformed(listError: string) | ListBody(entries: Option<seq<Option<RawGuest<A>>>>)
  datatype GuestBody<A> = GuestMalformed(guestError: string) | GuestBody(guest: Option<RawGuest<A>>)

  /** What `fetch` settles to: a rejection, or a response. */
  datatype Reply<B> = NetworkError(message: string) | Response(status: nat, statusText: string, body: B)

  predicate IsOk(status: nat) {
    200 <= status <= 299
  }

  function HttpErrorMessage(status: nat, statusText: string): string {
    "Luma error: " + Text.Decimal(status) + " " + statusText
  }

  /** The object literal both functions build from a raw guest. */
  function MapGuest<A>(e: Option<RawGuest<A>>): (g: LumaGuest<A>)
    ensures g.checkedIn <==> e.Some? && e.value.checkedIn == Some(true)
    ensures e.None? ==> g.name.None? && g.email.None? && g.ticketType.None? && g.answers.None?
  {
    match e
    case None => LumaGuest(None, None, None, false, None)
    case Some(r) =>
      LumaGuest(Coalesce(r.name, r.fullName), r.email, Coalesce(r.ticketType, r.ticketName),
                r.checkedIn.GetOr(false), r.answers)
  }

  /** `entries.map(...)`: one guest per entry, in order. */
  function MapGuests<A>(es: seq<Option<RawGuest<A>>>): (gs: seq<LumaGuest<A>>)
    ensures |gs| == |es|
    ensures forall i :: 0 <= i < |es| ==> gs[i] == MapGuest(es[i])
  {
    if es == [] then [] else [MapGuest(es[0])] + MapGuests(es[1..])
  }

  function ListRequestFor(eventApiId: string, limit: Option<nat>, apiKey: string): ListRequest {
    ListRequest(eventApiId, Text.Decimal(limit.GetOr(DefaultGuestLimit)), apiKey)
  }

  /** `fetchLumEventGuests(eventApiId, limit)`; `Err` is the thrown message. */
  function FetchEventGuests<A>(eventApiId: string, limit: Option<nat>, apiKey: Option<string>,
                               fetch: ListRequest -> Reply<ListBody<A>>): (r: Result<seq<LumaGuest<A>>, string>)
    ensures eventApiId == "" ==> r == Err(MissingEventIdMessage)
    ensures r.Ok? ==> Present(apiKey)
    ensures r.Ok? ==>
      var reply := fetch(ListRequestFor(eventApiId, limit, apiKey.value));
      reply.Response? && IsOk(reply.status) && reply.body.ListBody?
  {
    if eventApiId == "" then Err(MissingEventIdMessage)
    else if !Present(apiKey) then Err(MissingApiKeyMessage)
    else match fetch(ListRequestFor(eventApiId, limit, apiKey.value))
      case NetworkError(m) => Err(m)
      case Response(status, statusText, body) =>
        if !IsOk(status) then Err(HttpErrorMessage(status, statusText))
        else match body
          case ListMalformed(m) => Err(m)
          case ListBody(entries) => Ok(MapGuests(entries.GetOr([])))
  }

  /** `fetchLumGuestByEmail(eventApiId, email)`: `Ok(None)` is the `null`
      the source returns for a non-ok reply or a missing guest. */
  function FetchGuestByEmail<A>(eventApiId: string, email: string, apiKey: Option<string>,
                                fetch: GuestRequest -> Reply<GuestBody<A>>): (r: Result<Option<LumaGuest<A>>, string>)
    ensures eventApiId == "" ==> r == Err(MissingEventIdMessage)
    ensures r.Ok? ==> eventApiId != "" && Present(apiKey)
    ensures r.Ok? && r.value.Some? ==>
      var reply := fetch(GuestRequest(eventApiId, email, apiKey.value));
      reply.Response? && IsOk(reply.status) && reply.body.GuestBody? && reply.body.guest.Some?
  {
    if eventApiId == "" then Err(MissingEventIdMessage)
    else if !Present(apiKey) then Err(MissingApiKeyMessage)
    else match fetch(GuestRequest(eventApiId, email, apiKey.value))
      case NetworkError(m) => Err(m)
      case Response(status, _, body) =>
        if !IsOk(status) then Ok(None)
        else match body
          case GuestMalformed(m) => Err(m)
          case GuestBody(guest) => if guest.None? then Ok(None) else Ok(Some(MapGuest(guest)))
  }

  /** The guest list fails before any request when the event id is empty or
      the key is missing, fails with the status on a non-ok reply, and
      otherwise maps each entry, keeping count and order; the limit sent
      defaults to 5000. */
  lemma GuestListOutcome<A>(eventApiId: string, limit: Option<nat>, apiKey: Option<string>,
                            fetch: ListRequest -> Reply<ListBody<A>>)
    ensures eventApiId == "" ==> FetchEventGuests(eventApiId, limit, apiKey, fetch) == Err(MissingEventIdMessage)
    ensures eventApiId != "" && !Present(apiKey) ==> FetchEventGuests(eventApiId, limit, apiKey, fetch) == Err(MissingApiKeyMessage)
    ensures eventApiId != "" && Present(apiKey) && limit.None? ==>
      ListRequestFor(eventApiId, limit, apiKey.value).paginationLimit == "5000"
    ensures FetchEventGuests(eventApiId, limit, apiKey, fetch).Ok? ==>
      var reply := fetch(ListRequestFor(eventApiId, limit, apiKey.value));
      var gs := FetchEventGuests(eventApiId, limit, apiKey, fetch).value;
      reply.Response? && IsOk(reply.status) && reply.body.ListBody?
      && |gs| == |reply.body.entries.GetOr([])|
      && forall i :: 0 <= i < |gs| ==> gs[i] == MapGuest(reply.body.entries.GetOr([])[i])
    ensures eventApiId != "" && Present(apiKey) ==>
      var reply := fetch(ListRequestFor(eventApiId, limit, apiKey.value));
      reply.Response? && !IsOk(reply.status) ==>
        FetchEventGuests(eventApiId, limit, apiKey, fetch) == Err(HttpErrorMessage(reply.status, reply.statusText))
  {
    if eventApiId != "" && Present(apiKey) && limit.None? {
      assert Text.Decimal(5000) == Text.Decimal(500) + [Text.Digit(0)];
      assert Text.Decimal(500) == Text.Decimal(50) + [Text.Digit(0)];
      assert Text.Decimal(50) == Text.Decimal(5) + [Text.Digit(0)];
    }
  }

  /** A guest is found exactly when the reply is ok, parses, and carries a
      guest; a non-ok reply is not an error. */
  lemma GuestByEmailOutcome<A>(eventApiId: string, email: string, apiKey: Option<string>,
                               fetch: GuestRequest -> Reply<GuestBody<A>>)
    requires eventApiId != "" && Present(apiKey)
    ensures var reply := fetch(GuestRequest(eventApiId, email, apiKey.value));
      var r := FetchGuestByEmail(eventApiId, email, apiKey, fetch);
      (r.Ok? && r.value.Some? <==> reply.Response? && IsOk(reply.status) && reply.body.GuestBody? && reply.body.guest.Some?)
      && (reply.Response? && !IsOk(reply.status) ==> r == Ok(None))
      && (r.Ok? && r.value.Some? ==> r.value.value == MapGuest(reply.body.guest))
  {
  }
}
