/** `GET /api/attendance/verified-count`: how many attendance records were
    created today (by UTC calendar day) and are marked present. Turning a
    `Date` into its ISO string is left abstract: each record carries the ISO
    string of its `createdAt`, or `None` when that date is invalid (where
    `toISOString` throws), and the request carries the ISO string of now. */
module VerifiedCountRoute {
  import opened Js
  import Seqs

  const InternalErrorMessage := "Internal Error"
  /** The message of the `RangeError` that `toISOString` throws on an invalid date. */
  const InvalidTimeMessage := "Invalid time value"

  datatype AttendanceEntry = AttendanceEntry(createdIso: Option<string>, isPresent: Scalar)

  /** `res.json()` of the attendance backend: a parse failure, or an object
      whose `data` may be missing or not an array (`None`). */
  datatype Payload = Malformed(message: string) | Parsed(data: Option<seq<AttendanceEntry>>)

  /** How the backend request settled: rejected with an error message, or a
      response with its status, status text, body text and parsed payload. */
  datatype Upstream =
    | Unreachable(message: string)
    | Upstream(status: int, statusText: string, text: string, payload: Payload)

  datatype CountResponse = Failure(status: int, error: string) | Count(count: nat)

  predicate IsOk(status: int) {
    200 <= status <= 299
  }

  /** `toIsoDate`: the `YYYY-MM-DD` prefix of an ISO timestamp (`slice(0, 10)`). */
  function ToIsoDate(iso: string): (day: string)
    ensures |iso| >= 10 ==> |day| == 10
    ensures Seqs.Take(iso, 10) == day
  {
    if |iso| <= 10 then iso else iso[..10]
  }

  /** The filter callback: created on `today` and `isPresent === true`. */
  predicate CountedOn(e: AttendanceEntry, today: string) {
    e.createdIso.Some? && ToIsoDate(e.createdIso.value) == today && e.isPresent == Bool(true)
  }

  predicate AllDated(entries: seq<AttendanceEntry>) {
    forall i :: 0 <= i < |entries| ==> entries[i].createdIso.Some?
  }

  function CountOn(entries: seq<AttendanceEntry>, today: string): nat {
    |Seqs.Filter(entries, e => CountedOn(e, today))|
  }

  /** The route's answer for the backend reply `up` at the instant whose ISO
      string is `nowIso`. */
  function Respond(up: Upstream, nowIso: string): (r: CountResponse)
    ensures r.Count? ==> up.Upstream? && IsOk(up.status) && up.payload.Parsed?
    ensures r.Count? ==> r.count <= |up.payload.data.GetOr([])|
  {
    if up.Unreachable? then Failure(500, if up.message != "" then up.message else InternalErrorMessage)
    else if !IsOk(up.status) then Failure(up.status, if up.text != "" then up.text else up.statusText)
    else match up.payload
      case Malformed(m) => Failure(500, if m != "" then m else InternalErrorMessage)
      case Parsed(data) =>
        var entries := data.GetOr([]);
        if !AllDated(entries) then Failure(500, InvalidTimeMessage)
        else
          CountedExactly(entries, ToIsoDate(nowIso));
          Count(CountOn(entries, ToIsoDate(nowIso)))
  }

  /** A record is counted exactly when it was created today and is strictly
      `true` present; so the count never exceeds the number of records. */
  lemma CountedExactly(entries: seq<AttendanceEntry>, today: string)
    ensures CountOn(entries, today) <= |entries|
    ensures forall e :: e in Seqs.Filter(entries, e => CountedOn(e, today)) <==> e in entries && CountedOn(e, today)
  {
  }

  /** Counting over two batches of records adds up. */
  lemma CountAppend(a: seq<AttendanceEntry>, b: seq<AttendanceEntry>, today: string)
    ensures CountOn(a + b, today) == CountOn(a, today) + CountOn(b, today)
  {
    Seqs.FilterAppend(a, b, e => CountedOn(e, today));
  }

  /** A record counts once when it qualifies and not at all otherwise. */
  lemma CountOne(e: AttendanceEntry, today: string)
    ensures CountOn([e], today) == if CountedOn(e, today) then 1 else 0
  {
    Seqs.FilterSingleton(e, x => CountedOn(x, today));
  }

  /** A reply whose `data` is missing or not an array counts zero. */
  lemma NonArrayCountsZero(up: Upstream, nowIso: string)
    requires up.Upstream? && IsOk(up.status) && up.payload == Parsed(None)
    ensures Respond(up, nowIso) == Count(0)
  {
  }

  /** A non-ok backend reply is passed on with its own status and no count;
      an unreachable backend is a server error. */
  lemma FailurePassedThrough(up: Upstream, nowIso: string)
    requires up.Unreachable? || !IsOk(up.status)
    ensures Respond(up, nowIso).Failure?
    ensures Respond(up, nowIso).status == if up.Unreachable? then 500 else up.status
  {
  }

  /** An ok reply whose records all carry valid dates answers with the
      number of records created today and present, which never exceeds the
      number of records; a single invalid date fails the whole request. */
  lemma RespondCountsToday(up: Upstream, nowIso: string)
    requires up.Upstream? && IsOk(up.status) && up.payload.Parsed? && up.payload.data.Some?
    ensures AllDated(up.payload.data.value) ==>
      Respond(up, nowIso) == Count(CountOn(up.payload.data.value, ToIsoDate(nowIso)))
      && Respond(up, nowIso).count <= |up.payload.data.value|
    ensures !AllDated(up.payload.data.value) ==> Respond(up, nowIso) == Failure(500, InvalidTimeMessage)
  {
    CountedExactly(up.payload.data.value, ToIsoDate(nowIso));
  }

  /** Records marked present as the string "true" or the number 1 are not
      counted: the comparison is strict. */
  lemma PresenceIsStrict(iso: string, nowIso: string)
    requires ToIsoDate(iso) == ToIsoDate(nowIso)
    ensures CountOn([AttendanceEntry(Some(iso), Str("true")), AttendanceEntry(Some(iso), Num(1))], ToIsoDate(nowIso)) == 0
    ensures CountOn([AttendanceEntry(Some(iso), Bool(true))], ToIsoDate(nowIso)) == 1
  {
    var today := ToIsoDate(nowIso);
    var p := e => CountedOn(e, today);
    var s := AttendanceEntry(Some(iso), Str("true"));
    var n := AttendanceEntry(Some(iso), Num(1));
    assert [s, n] == [s] + [n];
    CountAppend([s], [n], today);
    CountOne(s, today);
    CountOne(n, today);
    CountOne(AttendanceEntry(Some(iso), Bool(true)), today);
  }
}
