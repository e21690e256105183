/** The Fuel Africa check-in dashboard: registrations come from the rows of
    a Google Form response sheet, rows without a usable e-mail are dropped,
    and the rest are listed most recent first. Attendee status is kept only
    in the component's verified set. */
module FuelAfricaCheckinTab {
  import opened Js
  import Text
  import Seqs
  import opened CheckinLookup

  const FuelAfricaEventName := "fuel-africa"
  const CheckinDay: nat := 1

  const TimestampColumn := "Timestamp"
  const NameColumn := "Full Name (Required)"
  const EmailColumn := "Email Address (Required)"
  const PhoneColumn := "Phone Number (WhatsApp Preferred) (Required)"
  const RoleColumn := "Current Role (Multiple choice)"

  /** A sheet row: column header to cell text. */
  type Row = map<string, string>

  /** The sheets route's reply: its `error` field and its `data` rows
      (`None` when missing, where `data.map` throws). */
  datatype SheetsBody = SheetsBody(error: Scalar, data: Option<seq<Row>>)

  function Cell(row: Row, column: string): Option<string> {
    if column in row then Some(row[column]) else None
  }

  /** The registration built from the row at 0-based position `index`. */
  function RowToRegistration(row: Row, index: nat): (r: Registration)
    ensures r.id == Index(index + 1)
    ensures r.email == "" <==> !Present(Cell(row, EmailColumn))
    ensures r.country.None? && r.location.None? && r.gender.None?
    ensures r.github.None? && r.telegramusername.None? && r.xhandle.None?
  {
    Registration(Index(index + 1), OrNull(Cell(row, NameColumn)), OrString(Cell(row, EmailColumn), ""),
                 OrNull(Cell(row, PhoneColumn)), None, None, None, None, None, None,
                 OrNull(Cell(row, RoleColumn)), OrNull(Cell(row, TimestampColumn)))
  }

  /** `response.data.map(...)` */
  function Transform(rows: seq<Row>): seq<Registration> {
    seq(|rows|, i requires 0 <= i < |rows| => RowToRegistration(rows[i], i))
  }

  /** The filter that drops empty entries. */
  predicate HasUsableEmail(r: Registration) {
    r.email != "" && Text.Contains(r.email, "@")
  }

  /** The registrations a successful load stores. */
  function SheetRegistrations(rows: seq<Row>): (r: seq<Registration>)
    ensures |r| <= |rows|
  {
    Seqs.Reverse(Seqs.Filter(Transform(rows), HasUsableEmail))
  }

  /** The rows of a reply that loads: ok, parsed, no `error`, with `data`. */
  function LoadedRows(reply: Fetch<SheetsBody>): (r: Option<seq<Row>>)
    ensures r.Some? ==> reply.Settled? && reply.ok && reply.body.Some? && r == reply.body.value.data
  {
    if reply.Delivered() && !Truthy(reply.body.value.error) then reply.body.value.data else None
  }

  /** The row number an id carries (`id` is always a number here). */
  function RowNumber(r: Registration): int {
    if r.id.Index? then r.id.n else 0
  }

  /** Every stored registration has a usable e-mail and is the row at its
      1-based id, with the columns the form lacks set to null. */
  lemma StoredRowsUsable(rows: seq<Row>)
    ensures forall r :: r in SheetRegistrations(rows) ==>
      HasUsableEmail(r) && r.id.Index? && 1 <= r.id.n <= |rows|
      && r == RowToRegistration(rows[r.id.n - 1], r.id.n - 1)
      && r.country.None? && r.location.None? && r.gender.None?
      && r.github.None? && r.telegramusername.None? && r.xhandle.None?
  {
    forall r | r in SheetRegistrations(rows)
      ensures HasUsableEmail(r) && r.id.Index? && 1 <= r.id.n <= |rows|
      ensures r == RowToRegistration(rows[r.id.n - 1], r.id.n - 1)
    {
      StoredRowUsable(rows, r);
    }
  }

  /** One stored registration is a kept row, found at its 1-based id. */
  lemma StoredRowUsable(rows: seq<Row>, r: Registration)
    requires r in SheetRegistrations(rows)
    ensures HasUsableEmail(r) && r.id.Index? && 1 <= r.id.n <= |rows|
    ensures r == RowToRegistration(rows[r.id.n - 1], r.id.n - 1)
  {
    var kept := Seqs.Filter(Transform(rows), HasUsableEmail);
    Seqs.ReversePermutes(kept);
    assert r in multiset(Seqs.Reverse(kept));
    assert r in kept;
    var i :| 0 <= i < |rows| && Transform(rows)[i] == r;
  }

  /** A row is kept exactly when its e-mail cell is non-empty and has an "@". */
  lemma RowKeptIffUsable(rows: seq<Row>, i: nat)
    requires i < |rows|
    ensures RowToRegistration(rows[i], i) in SheetRegistrations(rows) <==>
      Present(Cell(rows[i], EmailColumn)) && Text.Contains(Cell(rows[i], EmailColumn).value, "@")
  {
    var kept := Seqs.Filter(Transform(rows), HasUsableEmail);
    Seqs.ReversePermutes(kept);
    var r := RowToRegistration(rows[i], i);
    assert Transform(rows)[i] == r;
    assert r in SheetRegistrations(rows) <==> r in multiset(Seqs.Reverse(kept));
    assert r in multiset(kept) <==> r in kept;
    assert r in kept <==> HasUsableEmail(r);
    assert r.email == OrString(Cell(rows[i], EmailColumn), "");
  }

  /** Stored registrations are most recent first: row numbers strictly
      decrease along the list. */
  lemma MostRecentFirst(rows: seq<Row>)
    ensures forall i, j :: 0 <= i < j < |SheetRegistrations(rows)| ==>
      RowNumber(SheetRegistrations(rows)[i]) > RowNumber(SheetRegistrations(rows)[j])
  {
    var t := Transform(rows);
    assert Seqs.Ascending(t, RowNumber);
    Seqs.FilterAscending(t, HasUsableEmail, RowNumber);
    Seqs.ReverseAscending(Seqs.Filter(t, HasUsableEmail), RowNumber);
  }

  class FuelAfricaCheckinTab {
    const sheetId: string
    var registrations: seq<Registration>
    var registeredCount: nat
    var loading: bool
    /** The search box (`email` in the component). */
    var query: string
    var suggestions: seq<Registration>
    var selected: Option<Registration>
    var selectedVerified: Option<bool>
    var verifying: bool
    var verifiedEmails: set<string>

    ghost predicate Valid()
      reads this
    {
      registeredCount == |registrations|
      && (selectedVerified == Some(true) ==> selected.Some? && selected.value.email in verifiedEmails)
    }

    constructor(sheetId: string)
      ensures Valid() && this.sheetId == sheetId
      ensures registrations == [] && registeredCount == 0 && !loading
      ensures query == "" && suggestions == [] && selected == None && selectedVerified == None
      ensures !verifying && verifiedEmails == {}
    {
      this.sheetId := sheetId;
      registrations, registeredCount, loading := [], 0, false;
      query, suggestions, selected, selectedVerified := "", [], None, None;
      verifying, verifiedEmails := false, {};
    }

    /** `verifiedCount`: the size of the verified set. */
    function VerifiedCount(): (n: nat)
      reads this
      ensures n == 0 <==> verifiedEmails == {}
    {
      |verifiedEmails|
    }

    /** `fetchRegistrationsFromSheets`: the transformed rows are filtered,
        reversed in place, and stored with their count; any failure keeps
        the previous registrations. */
    method FetchRegistrationsFromSheets(reply: Fetch<SheetsBody>)
      requires Valid()
      modifies this
      ensures Valid() && !loading
      ensures LoadedRows(reply).Some? ==> registrations == SheetRegistrations(LoadedRows(reply).value)
      ensures LoadedRows(reply).None? ==> registrations == old(registrations) && registeredCount == old(registeredCount)
      ensures query == old(query) && suggestions == old(suggestions) && selected == old(selected)
      ensures selectedVerified == old(selectedVerified) && verifying == old(verifying)
      ensures verifiedEmails == old(verifiedEmails)
    {
      loading := true;
      var rows := LoadedRows(reply);
      if rows.Some? {
        var filtered := Seqs.Filter(Transform(rows.value), HasUsableEmail);
        var a := new Registration[|filtered|](i requires 0 <= i < |filtered| => filtered[i]);
        assert a[..] == filtered;
        Seqs.ReverseInPlace(a);
        registrations := a[..];
        registeredCount := a.Length;
      }
      loading := false;
    }

    /** `handleInputChange`, with the 200 ms debounce taken as immediate. */
    method HandleInputChange(value: string)
      requires Valid()
      modifies this
      ensures Valid()
      ensures query == value && suggestions == Suggestions(registrations, value)
      ensures registrations == old(registrations) && registeredCount == old(registeredCount) && loading == old(loading)
      ensures selected == old(selected) && selectedVerified == old(selectedVerified) && verifying == old(verifying)
      ensures verifiedEmails == old(verifiedEmails)
    {
      query := value;
      if Text.TrimmedLength(value) < MinQueryLength {
        suggestions := [];
        return;
      }
      suggestions := Suggestions(registrations, value);
    }

    /** `openAttendee(att)`: the status shown is membership in the verified set. */
    method OpenAttendee(att: Registration)
      requires Valid()
      modifies this
      ensures Valid()
      ensures selected == Some(att) && suggestions == [] && query == att.email
      ensures selectedVerified == Some(att.email in verifiedEmails)
      ensures verifiedEmails == old(verifiedEmails) && registrations == old(registrations)
      ensures registeredCount == old(registeredCount) && loading == old(loading) && verifying == old(verifying)
    {
      selected := Some(att);
      suggestions := [];
      query := att.email;
      selectedVerified := Some(att.email in verifiedEmails);
    }

    /** The Search button (enabled only for a non-empty box). */
    method Search() returns (found: bool)
      requires Valid() && query != ""
      modifies this
      ensures Valid()
      ensures found <==> FindByEmail(old(registrations), old(query)).Some?
      ensures found ==> (selected == FindByEmail(old(registrations), old(query))
        && query == selected.value.email && suggestions == []
        && selectedVerified == Some(selected.value.email in verifiedEmails))
      ensures !found ==> (selected == old(selected) && query == old(query)
        && selectedVerified == old(selectedVerified) && suggestions == old(suggestions))
      ensures verifiedEmails == old(verifiedEmails) && registrations == old(registrations)
      ensures registeredCount == old(registeredCount) && loading == old(loading) && verifying == old(verifying)
    {
      var hit := FindByEmail(registrations, query);
      found := hit.Some?;
      if found {
        OpenAttendee(hit.value);
      }
    }

    /** `handleVerify`: only an ok reply records the open attendee's e-mail. */
    method HandleVerify(reply: Fetch<()>) returns (request: Option<VerifyRequest>)
      requires Valid()
      modifies this
      ensures Valid()
      ensures old(selected).None? ==> (request == None && verifiedEmails == old(verifiedEmails)
        && selectedVerified == old(selectedVerified) && verifying == old(verifying))
      ensures old(selected).Some? ==> request == Some(VerifyRequest(old(selected).value.email, FuelAfricaEventName, CheckinDay)) && !verifying
      ensures old(selected).Some? && reply.Settled? && reply.ok ==>
        verifiedEmails == old(verifiedEmails) + {old(selected).value.email} && selectedVerified == Some(true)
      ensures !(reply.Settled? && reply.ok) ==> verifiedEmails == old(verifiedEmails) && selectedVerified == old(selectedVerified)
      ensures selected == old(selected) && registrations == old(registrations) && registeredCount == old(registeredCount)
      ensures loading == old(loading) && query == old(query) && suggestions == old(suggestions)
    {
      if selected.None? {
        return None;
      }
      verifying := true;
      request := Some(VerifyRequest(selected.value.email, FuelAfricaEventName, CheckinDay));
      if reply.Settled? && reply.ok {
        verifiedEmails := verifiedEmails + {selected.value.email};
        selectedVerified := Some(true);
      }
      verifying := false;
    }
  }
}
