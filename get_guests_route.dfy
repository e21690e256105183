/** `GET /api/luma/get-guests`: a proxy to Luma's guest list that either
    forwards one page or, with `all`, follows `next_cursor` page after page
    under a safety cap. The upstream is a function of the fetch number and
    the request, so a server that changes its answers, or hands back a cursor
    it has handed out before, is covered. */
module GetGuestsRoute {
  import opened Js
  import Text

  const DefaultPaginationLimit := "100"
  /** The loop breaks once its page counter exceeds this value. */
  const PageCap: nat := 100
  /** The most upstream fetches one `all` request can make. */
  const MaxFetches: nat := PageCap + 1

  const MissingEventIdMessage := "Missing event_api_id"
  const MissingApiKeyMessage := "Missing Luma API key (LUMA_API_KEY)"
  const UnexpectedErrorMessage := "Unexpected error"

  /** The route's query string. */
  datatype Query = Query(
    eventApiId: Option<string>,
    paginationLimit: Option<string>,
    approvalStatus: Option<string>,
    sortColumn: Option<string>,
    sortDirection: Option<string>,
    all: Option<string>,
    paginationCursor: Option<string>)

  /** The environment variables the route reads. */
  datatype Env = Env(
    lumaEventId: Option<string>,
    publicLumaEventId: Option<string>,
    lumaApiKey: Option<string>,
    publicLumaApiKey: Option<string>)

  /** The URL parameters and API key of one upstream `event/get-guests` call. */
  datatype PageRequest = PageRequest(
    eventApiId: string,
    paginationLimit: string,
    approvalStatus: Option<string>,
    sortColumn: Option<string>,
    sortDirection: Option<string>,
    cursor: Option<string>,
    apiKey: string)

  /** What `res.json()` gives for a page: a parse failure, or an object whose
      `entries` may be missing or not an array (`None`). */
  datatype PageBody<E> = Malformed(message: string) | Page(entries: Option<seq<E>>, nextCursor: Option<string>)

  /** An upstream reply: status, status text, the body read as text (used on
      failure) and the body read as JSON (used on success). */
  datatype UpstreamResponse<E> = UpstreamResponse(status: int, statusText: string, text: string, body: PageBody<E>)

  datatype Exchange<E> = Exchange(request: PageRequest, response: UpstreamResponse<E>)

  /** The route's reply: an `{ error }` object with a status, the single page
      passed through, or the collected `{ entries, count, next_cursor }`. */
  datatype RouteResponse<E> =
    | Failure(status: int, error: string)
    | Passthrough(rawEntries: Option<seq<E>>, rawNextCursor: Option<string>)
    | Collected(entries: seq<E>, count: nat, nextCursor: Option<string>)

  /** The route's reply together with every upstream call it made, in order. */
  datatype Served<E> = Served(response: RouteResponse<E>, exchanges: seq<Exchange<E>>)

  predicate IsOk(status: int) {
    200 <= status <= 299
  }

  function EventApiId(q: Query, env: Env): string {
    OrString(q.eventApiId, OrString(env.lumaEventId, OrString(env.publicLumaEventId, "")))
  }

  function PaginationLimit(q: Query): string {
    OrString(q.paginationLimit, DefaultPaginationLimit)
  }

  /** `["1", "true"].includes((all || "").toLowerCase())` */
  predicate AllFlag(q: Query) {
    var v := Text.Lower(OrString(q.all, ""));
    v == "1" || v == "true"
  }

  function ApiKey(env: Env): Option<string> {
    if Present(env.lumaApiKey) then env.lumaApiKey
    else if Present(env.publicLumaApiKey) then env.publicLumaApiKey
    else None
  }

  function ErrorText<E>(r: UpstreamResponse<E>): string {
    if r.text != "" then r.text else r.statusText
  }

  function CrashMessage(message: string): string {
    if message != "" then message else UnexpectedErrorMessage
  }

  function PageEntries<E>(r: UpstreamResponse<E>): seq<E> {
    if r.body.Page? && r.body.entries.Some? then r.body.entries.value else []
  }

  /** The loop goes on after this response: it is ok, parsed, and has a truthy cursor. */
  predicate Continues<E>(r: UpstreamResponse<E>) {
    IsOk(r.status) && r.body.Page? && Present(r.body.nextCursor)
  }

  /** The upstream calls of the paginating loop from page counter `page` on,
      when the cursor held is `cursor`. */
  function Walk<E>(upstream: (nat, PageRequest) -> UpstreamResponse<E>, base: PageRequest, cursor: Option<string>, page: nat): (w: seq<Exchange<E>>)
    requires page <= PageCap
    ensures |w| >= 1 && w[0].request == base.(cursor := OrNull(cursor))
    ensures w[0].response == upstream(page, w[0].request)
    decreases PageCap - page
  {
    var request := base.(cursor := OrNull(cursor));
    var r := upstream(page, request);
    if Continues(r) && page < PageCap then [Exchange(request, r)] + Walk(upstream, base, r.body.nextCursor, page + 1)
    else [Exchange(request, r)]
  }

  /** The entries of every page, concatenated in fetch order. */
  function AllEntries<E>(w: seq<Exchange<E>>): seq<E> {
    if w == [] then [] else AllEntries(w[..|w| - 1]) + PageEntries(w[|w| - 1].response)
  }

  /** The route's reply once the loop has made the calls `w`. */
  function Settle<E>(w: seq<Exchange<E>>): (r: RouteResponse<E>)
    requires w != []
    ensures r.Failure? <==> !IsOk(w[|w| - 1].response.status) || w[|w| - 1].response.body.Malformed?
    ensures r.Collected? ==> r.entries == AllEntries(w) && r.count == |r.entries|
  {
    var last := w[|w| - 1].response;
    if !IsOk(last.status) then Failure(last.status, ErrorText(last))
    else if last.body.Malformed? then Failure(500, CrashMessage(last.body.message))
    else var es := AllEntries(w); Collected(es, |es|, OrNull(last.body.nextCursor))
  }

  function SinglePage<E>(r: UpstreamResponse<E>): RouteResponse<E> {
    if !IsOk(r.status) then Failure(r.status, ErrorText(r))
    else if r.body.Malformed? then Failure(500, CrashMessage(r.body.message))
    else Passthrough(r.body.entries, r.body.nextCursor)
  }

  function BaseRequest(q: Query, eventApiId: string, apiKey: string): PageRequest {
    PageRequest(eventApiId, PaginationLimit(q), OrNull(q.approvalStatus), OrNull(q.sortColumn),
                OrNull(q.sortDirection), None, apiKey)
  }

  /** The whole route as a function of its inputs. */
  function Serve<E>(q: Query, env: Env, upstream: (nat, PageRequest) -> UpstreamResponse<E>): (s: Served<E>)
    ensures |s.exchanges| <= MaxFetches
    ensures s.exchanges == [] <==> EventApiId(q, env) == "" || ApiKey(env).None?
    ensures s.response.Collected? ==> s.response.count == |s.response.entries|
  {
    var id := EventApiId(q, env);
    if id == "" then Served(Failure(400, MissingEventIdMessage), [])
    else if ApiKey(env).None? then Served(Failure(500, MissingApiKeyMessage), [])
    else
      var base := BaseRequest(q, id, ApiKey(env).value);
      if !AllFlag(q) then
        var r := upstream(0, base);
        Served(SinglePage(r), [Exchange(base, r)])
      else
        var w := Walk(upstream, base, q.paginationCursor, 0);
        WalkBounded(upstream, base, q.paginationCursor, 0);
        Served(Settle(w), w)
  }

  /** The route handler. */
  method Get<E>(q: Query, env: Env, upstream: (nat, PageRequest) -> UpstreamResponse<E>)
    returns (resp: RouteResponse<E>, exchanges: seq<Exchange<E>>)
    ensures Served(resp, exchanges) == Serve(q, env, upstream)
    ensures |exchanges| <= MaxFetches
    ensures resp.Collected? ==> resp.count == |resp.entries|
  {
    var eventApiId := OrString(q.eventApiId, OrString(env.lumaEventId, OrString(env.publicLumaEventId, "")));
    if eventApiId == "" {
      return Failure(400, MissingEventIdMessage), [];
    }
    var key := ApiKey(env);
    if key.None? {
      return Failure(500, MissingApiKeyMessage), [];
    }
    var base := BaseRequest(q, eventApiId, key.value);
    if !AllFlag(q) {
      var r := upstream(0, base);
      exchanges := [Exchange(base, r)];
      if !IsOk(r.status) {
        resp := Failure(r.status, ErrorText(r));
      } else if r.body.Malformed? {
        resp := Failure(500, CrashMessage(r.body.message));
      } else {
        resp := Passthrough(r.body.entries, r.body.nextCursor);
      }
    } else {
      resp, exchanges := FetchAllPages(upstream, base, q.paginationCursor);
      WalkBounded(upstream, base, q.paginationCursor, 0);
    }
  }

  /** The auto-paginating `while (true)` loop of the handler. */
  method FetchAllPages<E>(upstream: (nat, PageRequest) -> UpstreamResponse<E>, base: PageRequest, cursor: Option<string>)
    returns (resp: RouteResponse<E>, exchanges: seq<Exchange<E>>)
    ensures exchanges == Walk(upstream, base, cursor, 0)
    ensures resp == Settle(exchanges)
  {
    WalkBounded(upstream, base, cursor, 0);
    ghost var whole := Walk(upstream, base, cursor, 0);
    var entries: seq<E> := [];
    var nextCursor := cursor;
    var page: nat := 0;
    exchanges := [];
    while true
      invariant page <= PageCap && page < |whole|
      invariant exchanges == whole[..page]
      invariant Walk(upstream, base, nextCursor, page) == whole[page..]
      invariant entries == AllEntries(exchanges)
      decreases PageCap - page
    {
      var request := base.(cursor := OrNull(nextCursor));
      var r := upstream(page, request);
      AdvanceWalk(upstream, base, nextCursor, page, whole);
      AllEntriesSnoc(exchanges, Exchange(request, r));
      exchanges := exchanges + [Exchange(request, r)];
      if !IsOk(r.status) {
        return Failure(r.status, ErrorText(r)), exchanges;
      }
      if r.body.Malformed? {
        return Failure(500, CrashMessage(r.body.message)), exchanges;
      }
      entries := entries + PageEntries(r);
      nextCursor := OrNull(r.body.nextCursor);
      page := page + 1;
      if nextCursor.None? || page > PageCap {
        break;
      }
    }
    resp := Collected(entries, |entries|, nextCursor);
  }

  /** One turn of the loop: the call it makes is the next one of the walk,
      and the walk ends there exactly when the loop stops. */
  lemma AdvanceWalk<E>(upstream: (nat, PageRequest) -> UpstreamResponse<E>, base: PageRequest,
                       cursor: Option<string>, page: nat, whole: seq<Exchange<E>>)
    requires page <= PageCap && page < |whole|
    requires Walk(upstream, base, cursor, page) == whole[page..]
    ensures var request := base.(cursor := OrNull(cursor));
            var r := upstream(page, request);
            && whole[page] == Exchange(request, r)
            && whole[..page + 1] == whole[..page] + [Exchange(request, r)]
            && (Continues(r) && page < PageCap ==>
                  page + 1 < |whole| && Walk(upstream, base, OrNull(r.body.nextCursor), page + 1) == whole[page + 1..])
            && (!(Continues(r) && page < PageCap) ==> whole[..page + 1] == whole)
  {
    var request := base.(cursor := OrNull(cursor));
    var r := upstream(page, request);
    assert whole[page..][0] == whole[page];
    if Continues(r) && page < PageCap {
      assert OrNull(r.body.nextCursor) == r.body.nextCursor;
      assert whole[page..][1..] == whole[page + 1..];
    } else {
      assert |whole[page..]| == 1;
    }
  }

  lemma AllEntriesSnoc<E>(w: seq<Exchange<E>>, x: Exchange<E>)
    ensures AllEntries(w + [x]) == AllEntries(w) + PageEntries(x.response)
  {
    assert (w + [x])[..|w|] == w;
  }

  /** The loop always stops: from page counter `page` it makes at least one
      and at most `MaxFetches - page` upstream calls, whatever the cursors. */
  lemma {:induction false} WalkBounded<E>(upstream: (nat, PageRequest) -> UpstreamResponse<E>, base: PageRequest, cursor: Option<string>, page: nat)
    requires page <= PageCap
    ensures 1 <= |Walk(upstream, base, cursor, page)| <= MaxFetches - page
    decreases PageCap - page
  {
    var r := upstream(page, base.(cursor := OrNull(cursor)));
    if Continues(r) && page < PageCap {
      WalkBounded(upstream, base, r.body.nextCursor, page + 1);
    }
  }

  /** The calls of a walk form a cursor chain: the first uses the cursor
      held, each later one the `next_cursor` of the reply before it, every
      reply but the last lets the loop go on, and a last reply that would
      let it go on means the page cap was reached. */
  lemma {:induction false} WalkLinks<E>(upstream: (nat, PageRequest) -> UpstreamResponse<E>, base: PageRequest, cursor: Option<string>, page: nat)
    requires page <= PageCap
    ensures var w := Walk(upstream, base, cursor, page);
            && w[0].request == base.(cursor := OrNull(cursor))
            && (forall i :: 0 <= i < |w| ==> w[i].response == upstream(page + i, w[i].request))
            && (forall i :: 0 <= i < |w| - 1 ==>
                  Continues(w[i].response) && w[i + 1].request == base.(cursor := w[i].response.body.nextCursor))
            && (Continues(w[|w| - 1].response) ==> |w| == MaxFetches - page)
    decreases PageCap - page
  {
    var request := base.(cursor := OrNull(cursor));
    var r := upstream(page, request);
    if Continues(r) && page < PageCap {
      var next := r.body.nextCursor;
      WalkLinks(upstream, base, next, page + 1);
      var w := Walk(upstream, base, cursor, page);
      var rest := Walk(upstream, base, next, page + 1);
      assert w == [Exchange(request, r)] + rest;
      assert OrNull(next) == next;
      forall i | 0 <= i < |w| ensures w[i].response == upstream(page + i, w[i].request) {
        if i > 0 {
          assert w[i] == rest[i - 1];
        }
      }
      forall i | 0 <= i < |w| - 1
        ensures Continues(w[i].response) && w[i + 1].request == base.(cursor := w[i].response.body.nextCursor)
      {
        if i > 0 {
          assert w[i] == rest[i - 1] && w[i + 1] == rest[i];
        }
      }
    }
  }

  /** The returned `next_cursor` is non-null only when the loop stopped at
      the page cap, after `MaxFetches` calls. */
  lemma CursorOnlyAtCap<E>(upstream: (nat, PageRequest) -> UpstreamResponse<E>, base: PageRequest, cursor: Option<string>)
    ensures var w := Walk(upstream, base, cursor, 0);
            Settle(w).Collected? && Settle(w).nextCursor.Some? ==> |w| == MaxFetches
  {
    WalkLinks(upstream, base, cursor, 0);
  }

  /** A failed page is the last page fetched, and the route answers with its
      status and text: whatever was collected before is dropped. */
  lemma FailedPageAborts<E>(upstream: (nat, PageRequest) -> UpstreamResponse<E>, base: PageRequest, cursor: Option<string>, k: nat)
    requires k < |Walk(upstream, base, cursor, 0)|
    requires !IsOk(Walk(upstream, base, cursor, 0)[k].response.status)
    ensures var w := Walk(upstream, base, cursor, 0);
            k == |w| - 1 && Settle(w) == Failure(w[k].response.status, ErrorText(w[k].response))
  {
    WalkLinks(upstream, base, cursor, 0);
  }

  /** An upstream whose every reply carries a cursor, such as one cycling
      A, B, A, ..., still ends the walk: after exactly `MaxFetches - page` calls. */
  lemma {:induction false} EndlessCursorsHitCap<E>(upstream: (nat, PageRequest) -> UpstreamResponse<E>, base: PageRequest, cursor: Option<string>, page: nat)
    requires page <= PageCap
    requires forall i, req :: Continues(upstream(i, req))
    ensures |Walk(upstream, base, cursor, page)| == MaxFetches - page
    decreases PageCap - page
  {
    var r := upstream(page, base.(cursor := OrNull(cursor)));
    if page < PageCap {
      EndlessCursorsHitCap(upstream, base, r.body.nextCursor, page + 1);
    }
  }

  /** With `all`, an upstream that always hands back a cursor yields 101
      fetches and a reply whose `next_cursor` is set and whose `count` is the
      number of entries collected. */
  lemma EndlessCursorsRoute<E>(q: Query, env: Env, upstream: (nat, PageRequest) -> UpstreamResponse<E>)
    requires EventApiId(q, env) != "" && ApiKey(env).Some? && AllFlag(q)
    requires forall i, req :: Continues(upstream(i, req))
    ensures var s := Serve(q, env, upstream);
            && |s.exchanges| == MaxFetches
            && s.response.Collected? && s.response.nextCursor.Some?
            && s.response.count == |s.response.entries|
  {
    var base := BaseRequest(q, EventApiId(q, env), ApiKey(env).value);
    EndlessCursorsHitCap(upstream, base, q.paginationCursor, 0);
    var w := Walk(upstream, base, q.paginationCursor, 0);
    assert Continues(w[|w| - 1].response) by {
      WalkLinks(upstream, base, q.paginationCursor, 0);
    }
  }

  /** Without an event id no upstream call is made and the answer is 400. */
  lemma MissingEventIdRejected<E>(q: Query, env: Env, upstream: (nat, PageRequest) -> UpstreamResponse<E>)
    requires !Present(q.eventApiId) && !Present(env.lumaEventId) && !Present(env.publicLumaEventId)
    ensures Serve(q, env, upstream) == Served(Failure(400, MissingEventIdMessage), [])
  {
  }

  /** The first upstream call carries the query's `pagination_cursor` when
      paginating, and no cursor on the single-page path. */
  lemma FirstRequestCursor<E>(q: Query, env: Env, upstream: (nat, PageRequest) -> UpstreamResponse<E>)
    requires EventApiId(q, env) != "" && ApiKey(env).Some?
    ensures var s := Serve(q, env, upstream);
            && |s.exchanges| >= 1
            && s.exchanges[0].request.eventApiId == EventApiId(q, env)
            && s.exchanges[0].request.paginationLimit == PaginationLimit(q)
            && s.exchanges[0].request.cursor == (if AllFlag(q) then OrNull(q.paginationCursor) else None)
  {
    var base := BaseRequest(q, EventApiId(q, env), ApiKey(env).value);
    if AllFlag(q) {
      WalkLinks(upstream, base, q.paginationCursor, 0);
    }
  }
}
