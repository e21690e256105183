/** The mongoose `Event` model: required and bounded paths, the `eventType`
    enumeration, the defaults, and the unique index on `name`. Object ids
    are natural numbers and dates are instants given as integers. */
module EventModel {
  import opened Js

  type ObjectId = nat

  const NameMaxLength: nat := 200
  const DescriptionMaxLength: nat := 1000
  const LocationMaxLength: nat := 200
  const OrganizerMaxLength: nat := 100
  const MinCapacity: int := 1
  const DefaultOrganizer := "HostIT"

  datatype EventType = Conference | Workshop | Meetup | Hackathon | Webinar | Other

  /** The string stored for each enumeration value. */
  function EventTypeName(t: EventType): string {
    match t
    case Conference => "conference"
    case Workshop => "workshop"
    case Meetup => "meetup"
    case Hackathon => "hackathon"
    case Webinar => "webinar"
    case Other => "other"
  }

  /** The enum validator: `None` for a string outside the list. */
  function ParseEventType(s: string): Option<EventType> {
    if s == "conference" then Some(Conference)
    else if s == "workshop" then Some(Workshop)
    else if s == "meetup" then Some(Meetup)
    else if s == "hackathon" then Some(Hackathon)
    else if s == "webinar" then Some(Webinar)
    else if s == "other" then Some(Other)
    else None
  }

  /** The enum accepts exactly the six listed names, each naming its value. */
  lemma EventTypeNamesRoundTrip(s: string, t: EventType)
    ensures ParseEventType(s) == Some(t) <==> s == EventTypeName(t)
    ensures ParseEventType(EventTypeName(t)) == Some(t)
  {
  }

  /** A stored event document. */
  datatype Event = Event(
    id: ObjectId, name: string, description: Option<string>, startDate: int,
    endDate: Option<int>, location: Option<string>, isActive: bool, maxCapacity: Option<int>,
    registrationDeadline: Option<int>, eventType: EventType, organizer: string)

  /** What is handed to `Event.create`; `None` is an absent path. */
  datatype EventInput = EventInput(
    name: Option<string>, description: Option<string>, startDate: Option<int>,
    endDate: Option<int>, location: Option<string>, isActive: Option<bool>, maxCapacity: Option<int>,
    registrationDeadline: Option<int>, eventType: Option<string>, organizer: Option<string>)

  predicate WithinLength(s: Option<string>, max: nat) {
    s.None? || |s.value| <= max
  }

  /** Every constraint of the schema, stated on a stored document. */
  predicate Valid(e: Event) {
    e.name != "" && |e.name| <= NameMaxLength
    && WithinLength(e.description, DescriptionMaxLength)
    && WithinLength(e.location, LocationMaxLength)
    && (e.maxCapacity.None? || e.maxCapacity.value >= MinCapacity)
    && |e.organizer| <= OrganizerMaxLength
  }

  /** The paths whose validator fails on `input` (after defaults). */
  function ValidationErrors(input: EventInput): set<string> {
    (if input.name.None? || input.name.value == "" || |input.name.value| > NameMaxLength then {"name"} else {})
    + (if !WithinLength(input.description, DescriptionMaxLength) then {"description"} else {})
    + (if input.startDate.None? then {"startDate"} else {})
    + (if !WithinLength(input.location, LocationMaxLength) then {"location"} else {})
    + (if input.maxCapacity.Some? && input.maxCapacity.value < MinCapacity then {"maxCapacity"} else {})
    + (if input.eventType.Some? && ParseEventType(input.eventType.value).None? then {"eventType"} else {})
    + (if |input.organizer.GetOr(DefaultOrganizer)| > OrganizerMaxLength then {"organizer"} else {})
  }

  /** Document construction: `isActive` defaults to true, `eventType` to
      conference and `organizer` to "HostIT"; any failing validator rejects. */
  function Create(input: EventInput, id: ObjectId): (r: Result<Event, set<string>>)
    ensures r.Ok? <==> ValidationErrors(input) == {}
    ensures r.Ok? ==> Valid(r.value) && r.value.id == id
    ensures r.Ok? ==> r.value.isActive == input.isActive.GetOr(true)
    ensures r.Ok? ==> r.value.organizer == input.organizer.GetOr(DefaultOrganizer)
    ensures r.Ok? ==> (input.eventType.None? ==> r.value.eventType == Conference)
    ensures r.Ok? ==> (input.eventType.Some? ==> EventTypeName(r.value.eventType) == input.eventType.value)
  {
    var errors := ValidationErrors(input);
    if errors != {} then Err(errors)
    else
      assert "name" !in errors && "startDate" !in errors && "eventType" !in errors;
      var eventType := if input.eventType.Some? then ParseEventType(input.eventType.value).value else Conference;
      EventTypeNamesRoundTrip(input.eventType.GetOr("conference"), eventType);
      Ok(Event(id, input.name.value, input.description, input.startDate.value, input.endDate,
               input.location, input.isActive.GetOr(true), input.maxCapacity, input.registrationDeadline,
               eventType, input.organizer.GetOr(DefaultOrganizer)))
  }

  /** No two events share a name. */
  predicate NamesUnique(events: seq<Event>) {
    forall i, j :: 0 <= i < j < |events| ==> events[i].name != events[j].name
  }

  /** `Event.findOne({ name })` */
  function FindByName(events: seq<Event>, name: string): (r: Option<Event>)
    ensures r.None? <==> forall i :: 0 <= i < |events| ==> events[i].name != name
    ensures r.Some? ==> r.value in events && r.value.name == name
  {
    if events == [] then None
    else if events[0].name == name then Some(events[0])
    else FindByName(events[1..], name)
  }

  /** With unique names the lookup is determined: it returns the one event
      with that name. */
  lemma FindByNameUnique(events: seq<Event>, i: nat)
    requires NamesUnique(events) && i < |events|
    ensures FindByName(events, events[i].name) == Some(events[i])
  {
    var r := FindByName(events, events[i].name);
    var j :| 0 <= j < |events| && events[j] == r.value;
    assert events[j].name == events[i].name;
  }

  /** An insert under the unique name index: `None` on a duplicate name. */
  function InsertEvent(events: seq<Event>, e: Event): (r: Option<seq<Event>>)
    ensures r.None? <==> exists i :: 0 <= i < |events| && events[i].name == e.name
    ensures r.Some? ==> r.value == events + [e]
  {
    if FindByName(events, e.name).Some? then None else Some(events + [e])
  }

  /** Inserting keeps names unique. */
  lemma InsertKeepsNamesUnique(events: seq<Event>, e: Event)
    requires NamesUnique(events) && InsertEvent(events, e).Some?
    ensures NamesUnique(InsertEvent(events, e).value)
  {
    var s := InsertEvent(events, e).value;
    forall i, j | 0 <= i < j < |s| ensures s[i].name != s[j].name {
      if j == |events| {
        assert s[i] == events[i];
      }
    }
  }
}
