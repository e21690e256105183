/** The Luma check-in dashboard: loads every guest of the event through the
    guest-list route, offers an e-mail typeahead and search, looks up an
    attendee's verification status, and verifies attendees. Each `fetch` the
    component makes is an input describing how that request settled. */
module CheckinTab {
  import opened Js
  import Text
  import opened CheckinLookup

  const EliteEventName := "the-elite-experience"
  const CheckinDay: nat := 1

  /** One element of `registration_answers`. */
  datatype Answer = Answer(answer: Option<string>)

  /** The `guest` object of a Luma guest-list entry. */
  datatype LumaGuestRecord = LumaGuestRecord(
    userEmail: Option<string>, email: Option<string>, userName: Option<string>,
    registrationAnswers: Option<seq<Option<Answer>>>)

  /** An entry of the guest list; `guest` is `None` when absent. */
  datatype LumaEntry = LumaEntry(guest: Option<LumaGuestRecord>)

  /** The guest-list reply: `entries` is `None` when missing or `null`, and an
      element is `None` when it is `null`. */
  datatype GuestsData = GuestsData(entries: Option<seq<Option<LumaEntry>>>)

  /** `user_email || email || ""` (the whole chain is `undefined` for a `null` entry). */
  function EntryEmail(e: Option<LumaEntry>): string {
    if e.Some? && e.value.guest.Some? then
      OrString(e.value.guest.value.userEmail, OrString(e.value.guest.value.email, ""))
    else ""
  }

  /** `${user_email || email || index}-${index}` */
  function EntryId(e: Option<LumaEntry>, index: nat): string {
    var key := if EntryEmail(e) != "" then EntryEmail(e) else Text.Decimal(index);
    key + "-" + Text.Decimal(index)
  }

  /** Reading `registration_answers[k].answer` throws unless the list has an
      object at `k`. */
  predicate HasAnswer(g: LumaGuestRecord, k: nat) {
    g.registrationAnswers.Some? && k < |g.registrationAnswers.value|
    && g.registrationAnswers.value[k].Some?
  }

  /** The object literal of `entries.map(...)` for entry `e` at `index`;
      `None` when building it throws. A `null` entry short-circuits every
      `?.` chain; a non-null entry without `guest` throws. */
  function EntryToRegistration(e: Option<LumaEntry>, index: nat): (r: Option<Registration>)
    ensures r.Some? ==> r.value.email == EntryEmail(e) && r.value.id == Label(EntryId(e, index))
    ensures r.None? <==> e.Some? && (e.value.guest.None? || !HasAnswer(e.value.guest.value, 0) || !HasAnswer(e.value.guest.value, 1))
  {
    match e
    case None =>
      Some(Registration(Label(EntryId(e, index)), None, "", None, None, None, None, None, None, None, None, None))
    case Some(entry) =>
      match entry.guest
      case None => None
      case Some(g) =>
        if !HasAnswer(g, 0) || !HasAnswer(g, 1) then None
        else
          var answers := g.registrationAnswers.value;
          Some(Registration(Label(EntryId(e, index)), OrNull(g.userName), EntryEmail(e), None, None,
                            answers[1].value.answer, None, None, None, None, answers[0].value.answer, None))
  }

  /** The mapping from position `start` on: `None` as soon as one entry throws. */
  function MapEntries(entries: seq<Option<LumaEntry>>, start: nat): (r: Option<seq<Registration>>)
    ensures r.Some? <==> forall i :: 0 <= i < |entries| ==> EntryToRegistration(entries[i], start + i).Some?
    ensures r.Some? ==> (|r.value| == |entries|
      && forall i :: 0 <= i < |entries| ==> r.value[i] == EntryToRegistration(entries[i], start + i).value)
    decreases |entries|
  {
    if entries == [] then Some([])
    else
      var head := EntryToRegistration(entries[0], start);
      var tail := MapEntries(entries[1..], start + 1);
      if head.None? || tail.None? then None else Some([head.value] + tail.value)
  }

  /** What a guest-list load yields: the mapped registrations, or `None` when
      the request fails, is not ok, does not parse, or the mapping throws. */
  function LoadedRegistrations(reply: Fetch<GuestsData>): (r: Option<seq<Registration>>)
    ensures r.Some? ==> (reply.Delivered()
      && |r.value| == |reply.body.value.entries.GetOr([])|
      && forall i :: 0 <= i < |r.value| ==> r.value[i].email == EntryEmail(reply.body.value.entries.GetOr([])[i]))
  {
    if reply.Delivered() then MapEntries(reply.body.value.entries.GetOr([]), 0) else None
  }

  /** The `count` the dashboard keeps: the number when it is one, else 0. */
  function TodayCount(count: Scalar): (c: int)
    ensures count.Num? ==> c == count.n
    ensures !count.Num? ==> c == 0
  {
    if count.Num? then count.n else 0
  }

  /** The number of decimal digits that end `s`. */
  function TrailingDigits(s: string): nat {
    if s != [] && '0' <= s[|s| - 1] <= '9' then 1 + TrailingDigits(s[..|s| - 1]) else 0
  }

  lemma {:induction false} TrailingDigitsAfterDash(a: string, d: string)
    requires forall k :: 0 <= k < |d| ==> '0' <= d[k] <= '9'
    ensures TrailingDigits(a + "-" + d) == |d|
  {
    var s := a + "-" + d;
    if d != [] {
      var d' := d[..|d| - 1];
      assert s[..|s| - 1] == a + "-" + d';
      TrailingDigitsAfterDash(a, d');
    }
  }

  /** The digits after the last dash of an id are the entry's index. */
  lemma IdSuffixDetermines(a: string, b: string, i: nat, j: nat)
    requires a + "-" + Text.Decimal(i) == b + "-" + Text.Decimal(j)
    ensures i == j
  {
    var di, dj := Text.Decimal(i), Text.Decimal(j);
    var s := a + "-" + di;
    TrailingDigitsAfterDash(a, di);
    TrailingDigitsAfterDash(b, dj);
    assert di == s[|s| - |di|..] == dj;
    Text.DecimalInjective(i, j);
  }

  /** Mapped registrations have pairwise distinct ids, as React list keys must. */
  lemma MappedIdsDistinct(entries: seq<Option<LumaEntry>>)
    requires MapEntries(entries, 0).Some?
    ensures var regs := MapEntries(entries, 0).value;
      forall i, j :: 0 <= i < j < |regs| ==> regs[i].id != regs[j].id
  {
    var regs := MapEntries(entries, 0).value;
    forall i, j | 0 <= i < j < |regs| ensures regs[i].id != regs[j].id {
      if regs[i].id == regs[j].id {
        var ki := if EntryEmail(entries[i]) != "" then EntryEmail(entries[i]) else Text.Decimal(i);
        var kj := if EntryEmail(entries[j]) != "" then EntryEmail(entries[j]) else Text.Decimal(j);
        IdSuffixDetermines(ki, kj, i, j);
      }
    }
  }

  class CheckInTab {
    var registrations: seq<Registration>
    var registeredCount: nat
    var loading: bool
    /** The search box (`email` in the component). */
    var query: string
    var suggestions: seq<Registration>
    var selected: Option<Registration>
    var selectedVerified: Option<bool>
    var verifying: bool
    var verifiedEmails: set<string>
    var verifiedTodayCount: int

    /** The count shown is the number of loaded registrations, and an
        attendee shown as verified is in the verified set. */
    ghost predicate Valid()
      reads this
    {
      registeredCount == |registrations|
      && (selectedVerified == Some(true) ==> selected.Some? && selected.value.email in verifiedEmails)
    }

    constructor()
      ensures Valid()
      ensures registrations == [] && registeredCount == 0 && !loading
      ensures query == "" && suggestions == [] && selected == None && selectedVerified == None
      ensures !verifying && verifiedEmails == {} && verifiedTodayCount == 0
    {
      registrations, registeredCount, loading := [], 0, false;
      query, suggestions, selected, selectedVerified := "", [], None, None;
      verifying, verifiedEmails, verifiedTodayCount := false, {}, 0;
    }

    /** `verifiedCount`: the size of the verified set. */
    function VerifiedCount(): (n: nat)
      reads this
      ensures n == 0 <==> verifiedEmails == {}
    {
      |verifiedEmails|
    }

    /** `fetchAllRegistrations`: a successful load replaces the list and its
        count; a failed one keeps both. */
    method FetchAllRegistrations(reply: Fetch<GuestsData>)
      requires Valid()
      modifies this
      ensures Valid() && !loading
      ensures LoadedRegistrations(reply).Some? ==> registrations == LoadedRegistrations(reply).value
      ensures LoadedRegistrations(reply).None? ==> registrations == old(registrations) && registeredCount == old(registeredCount)
      ensures query == old(query) && suggestions == old(suggestions) && selected == old(selected)
      ensures selectedVerified == old(selectedVerified) && verifying == old(verifying)
      ensures verifiedEmails == old(verifiedEmails) && verifiedTodayCount == old(verifiedTodayCount)
    {
      loading := true;
      var mapped := LoadedRegistrations(reply);
      if mapped.Some? {
        registrations := mapped.value;
        registeredCount := |mapped.value|;
      }
      loading := false;
    }

    /** `fetchVerifiedTodayCount` */
    method FetchVerifiedTodayCount(reply: Fetch<Scalar>)
      requires Valid()
      modifies this
      ensures Valid()
      ensures verifiedTodayCount == if reply.Delivered() then TodayCount(reply.body.value) else old(verifiedTodayCount)
      ensures registrations == old(registrations) && registeredCount == old(registeredCount) && loading == old(loading)
      ensures query == old(query) && suggestions == old(suggestions) && selected == old(selected)
      ensures selectedVerified == old(selectedVerified) && verifying == old(verifying)
      ensures verifiedEmails == old(verifiedEmails)
    {
      if reply.Delivered() {
        verifiedTodayCount := TodayCount(reply.body.value);
      }
    }

    /** `handleInputChange`, with the 200 ms debounce taken as immediate. */
    method HandleInputChange(value: string)
      requires Valid()
      modifies this
      ensures Valid()
      ensures query == value && suggestions == Suggestions(registrations, value)
      ensures registrations == old(registrations) && registeredCount == old(registeredCount) && loading == old(loading)
      ensures selected == old(selected) && selectedVerified == old(selectedVerified) && verifying == old(verifying)
      ensures verifiedEmails == old(verifiedEmails) && verifiedTodayCount == old(verifiedTodayCount)
    {
      query := value;
      if Text.TrimmedLength(value) < MinQueryLength {
        suggestions := [];
        return;
      }
      suggestions := Suggestions(registrations, value);
    }

    /** `openAttendee(att)`: `status` is how the verify-status request
        settled, its body being the `verified` field. An ok reply decides
        the status (and records a verified e-mail); anything else falls back
        to the verified set. */
    method OpenAttendee(att: Registration, status: Fetch<Scalar>)
      requires Valid()
      modifies this
      ensures Valid()
      ensures selected == Some(att) && suggestions == [] && query == att.email
      ensures status.Delivered() ==> selectedVerified == Some(Truthy(status.body.value))
      ensures status.Delivered() ==> verifiedEmails == old(verifiedEmails) + (if Truthy(status.body.value) then {att.email} else {})
      ensures !status.Delivered() ==> selectedVerified == Some(att.email in old(verifiedEmails)) && verifiedEmails == old(verifiedEmails)
      ensures registrations == old(registrations) && registeredCount == old(registeredCount) && loading == old(loading)
      ensures verifying == old(verifying) && verifiedTodayCount == old(verifiedTodayCount)
    {
      selected := Some(att);
      suggestions := [];
      query := att.email;
      if status.Delivered() {
        var v := Truthy(status.body.value);
        selectedVerified := Some(v);
        if v {
          verifiedEmails := verifiedEmails + {att.email};
        }
        return;
      }
      selectedVerified := Some(att.email in verifiedEmails);
    }

    /** The Search button (enabled only for a non-empty box): open the first
        registration whose e-mail equals the box up to case, or report that
        none was found. */
    method Search(status: Fetch<Scalar>) returns (found: bool)
      requires Valid() && query != ""
      modifies this
      ensures Valid()
      ensures found <==> FindByEmail(old(registrations), old(query)).Some?
      ensures found ==> selected == FindByEmail(old(registrations), old(query))
      ensures found ==>
        var att := FindByEmail(old(registrations), old(query)).value;
        && query == att.email && suggestions == []
        && (status.Delivered() ==> (selectedVerified == Some(Truthy(status.body.value))
              && verifiedEmails == old(verifiedEmails) + (if Truthy(status.body.value) then {att.email} else {})))
        && (!status.Delivered() ==> (selectedVerified == Some(att.email in old(verifiedEmails))
              && verifiedEmails == old(verifiedEmails)))
      ensures !found ==> (selected == old(selected) && query == old(query) && verifiedEmails == old(verifiedEmails)
        && selectedVerified == old(selectedVerified) && suggestions == old(suggestions))
      ensures registrations == old(registrations) && registeredCount == old(registeredCount)
      ensures loading == old(loading) && verifying == old(verifying) && verifiedTodayCount == old(verifiedTodayCount)
    {
      var hit := FindByEmail(registrations, query);
      found := hit.Some?;
      if found {
        OpenAttendee(hit.value, status);
      }
    }

    /** `handleVerify`: with an attendee open, post the verification; only
        an ok reply records the e-mail and marks the attendee verified. */
    method HandleVerify(reply: Fetch<()>) returns (request: Option<VerifyRequest>)
      requires Valid()
      modifies this
      ensures Valid()
      ensures old(selected).None? ==> (request == None && verifiedEmails == old(verifiedEmails)
        && selectedVerified == old(selectedVerified) && verifying == old(verifying))
      ensures old(selected).Some? ==> request == Some(VerifyRequest(old(selected).value.email, EliteEventName, CheckinDay)) && !verifying
      ensures old(selected).Some? && reply.Settled? && reply.ok ==>
        verifiedEmails == old(verifiedEmails) + {old(selected).value.email} && selectedVerified == Some(true)
      ensures !(reply.Settled? && reply.ok) ==> verifiedEmails == old(verifiedEmails) && selectedVerified == old(selectedVerified)
      ensures selected == old(selected) && registrations == old(registrations) && registeredCount == old(registeredCount)
      ensures loading == old(loading) && query == old(query) && suggestions == old(suggestions)
      ensures verifiedTodayCount == old(verifiedTodayCount)
    {
      if selected.None? {
        return None;
      }
      verifying := true;
      request := Some(VerifyRequest(selected.value.email, EliteEventName, CheckinDay));
      if reply.Settled? && reply.ok {
        verifiedEmails := verifiedEmails + {selected.value.email};
        selectedVerified := Some(true);
      }
      verifying := false;
    }
  }
}
