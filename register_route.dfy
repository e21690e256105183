/** `POST /api/register-fuel-africa`: checks the four required fields, finds
    the "Fuel Africa Event", rejects a second registration of the same
    e-mail for it, and stores a new registration. The database is the
    object's state: the events and the registrations under their unique
    `(eventId, email)` key. */
module RegisterFuelAfricaRoute {
  import opened Js
  import RegistrationModel
  import EventModel

  const FuelAfricaEventName := "Fuel Africa Event"
  const MissingFieldsMessage := "Missing required fields: name, email, phone, and country are required"
  const AlreadyRegisteredMessage := "User is already registered for this event"
  const SuccessMessage := "Registration successful for Fuel Africa event"
  const FailureMessage := "Failed to create registration"

  /** The JSON request body; `None` is an absent or `null` field. */
  datatype RegistrationBody = RegistrationBody(
    name: Option<string>, email: Option<string>, phone: Option<string>, country: Option<string>,
    location: Option<string>, gender: Option<string>, github: Option<string>,
    telegramusername: Option<string>, xhandle: Option<string>, role: Option<string>)

  datatype Response = Response(
    status: nat, message: string, registrationId: Option<RegistrationModel.ObjectId>,
    eventId: Option<RegistrationModel.ObjectId>, eventName: Option<string>)

  function Reply(status: nat, message: string): Response {
    Response(status, message, None, None, None)
  }

  /** The route's own check: each of the four fields truthy (not trimmed). */
  predicate HasRequiredFields(b: RegistrationBody): (ok: bool)
    ensures ok ==> RegistrationModel.RequiredString(b.name) && RegistrationModel.RequiredString(b.email)
  {
    Present(b.name) && Present(b.email) && Present(b.phone) && Present(b.country)
  }

  /** `field || null`: a stored optional path is `null` when the request's
      value is falsy, and that value otherwise. */
  predicate NullWhenFalsy(stored: Option<string>, sent: Option<string>) {
    if Present(sent) then stored == sent else stored.None?
  }

  /** The document handed to `Registration.create`: ids from the event,
      falsy optional fields as `null`, the date now. */
  function RecordInput(b: RegistrationBody, event: EventModel.Event, now: int): (input: RegistrationModel.RegistrationInput)
    ensures input.eventId == Some(event.id) && input.eventName == Some(event.name)
    ensures input.name == b.name && input.email == b.email && input.phone == b.phone && input.country == b.country
    ensures NullWhenFalsy(input.location, b.location) && NullWhenFalsy(input.gender, b.gender)
    ensures NullWhenFalsy(input.github, b.github) && NullWhenFalsy(input.telegramusername, b.telegramusername)
    ensures NullWhenFalsy(input.xhandle, b.xhandle) && NullWhenFalsy(input.role, b.role)
    ensures input.address.None? && input.agreeToNewsletter.None? && input.registrationDate == Some(now)
  {
    RegistrationModel.RegistrationInput(
      Some(event.id), Some(event.name), b.name, b.email, b.phone, b.country,
      OrNull(b.location), OrNull(b.gender), OrNull(b.github), OrNull(b.telegramusername),
      OrNull(b.xhandle), OrNull(b.role), None, None, Some(now))
  }

  /** The route's reply to `body` with the database holding `events` and
      `store`, the next registration getting `nextId`. */
  function Answer(body: Option<RegistrationBody>, events: seq<EventModel.Event>,
                  store: map<RegistrationModel.RegistrationKey, RegistrationModel.Registration>,
                  nextId: RegistrationModel.ObjectId, now: int): Response
  {
    if body.None? then Reply(500, FailureMessage)
    else if !HasRequiredFields(body.value) then Reply(400, MissingFieldsMessage)
    else match EventModel.FindByName(events, FuelAfricaEventName)
      case None => Reply(500, FailureMessage)
      case Some(event) =>
        if (event.id, body.value.email.value) in store then Reply(409, AlreadyRegisteredMessage)
        else if RegistrationModel.Create(RecordInput(body.value, event, now), nextId, now).Err? then Reply(500, FailureMessage)
        else Response(201, SuccessMessage, Some(nextId), Some(event.id), Some(event.name))
  }

  /** The route succeeds exactly when the body parses and has the four
      fields, the event exists, the e-mail is not yet registered for it, and
      the schema accepts the document; every other outcome is 400, 409 or 500. */
  lemma AnswerSucceedsExactly(body: Option<RegistrationBody>, events: seq<EventModel.Event>,
                              store: map<RegistrationModel.RegistrationKey, RegistrationModel.Registration>,
                              nextId: RegistrationModel.ObjectId, now: int)
    ensures var resp := Answer(body, events, store, nextId, now);
      var event := EventModel.FindByName(events, FuelAfricaEventName);
      && (resp.status == 201 <==>
           body.Some? && HasRequiredFields(body.value) && event.Some?
           && (event.value.id, body.value.email.value) !in store
           && RegistrationModel.Create(RecordInput(body.value, event.value, now), nextId, now).Ok?)
      && (resp.status == 409 <==>
           body.Some? && HasRequiredFields(body.value) && event.Some?
           && (event.value.id, body.value.email.value) in store)
      && (resp.status == 400 <==> body.Some? && !HasRequiredFields(body.value))
      && resp.status in {201, 400, 409, 500}
  {
  }

  /** Registrations sit under their own key, satisfy the schema, and have
      ids below `nextId`. */
  ghost predicate StoreValid(store: map<RegistrationModel.RegistrationKey, RegistrationModel.Registration>, nextId: nat) {
    RegistrationModel.KeyedByEventAndEmail(store)
    && forall k :: k in store ==> RegistrationModel.Valid(store[k]) && store[k].id < nextId
  }

  /** Inserting a valid registration with the next id keeps the store valid
      for the following id. */
  lemma AddKeepsStoreValid(store: map<RegistrationModel.RegistrationKey, RegistrationModel.Registration>, nextId: nat,
                           reg: RegistrationModel.Registration)
    requires StoreValid(store, nextId) && RegistrationModel.Valid(reg) && reg.id == nextId
    requires RegistrationModel.KeyOf(reg) !in store
    ensures RegistrationModel.Insert(store, reg) == Some(store[RegistrationModel.KeyOf(reg) := reg])
    ensures StoreValid(store[RegistrationModel.KeyOf(reg) := reg], nextId + 1)
  {
    RegistrationModel.InsertKeepsKeyed(store, reg);
  }

  class FuelAfricaRegistrations {
    var events: seq<EventModel.Event>
    var registrations: map<RegistrationModel.RegistrationKey, RegistrationModel.Registration>
    /** The id the next registration gets. */
    var nextId: RegistrationModel.ObjectId

    /** Event names are unique, every event satisfies its schema, and the
        registration store is valid. */
    ghost predicate Valid()
      reads this
    {
      EventModel.NamesUnique(events)
      && (forall i :: 0 <= i < |events| ==> EventModel.Valid(events[i]))
      && StoreValid(registrations, nextId)
    }

    constructor(events: seq<EventModel.Event>)
      requires EventModel.NamesUnique(events)
      requires forall i :: 0 <= i < |events| ==> EventModel.Valid(events[i])
      ensures Valid() && this.events == events && registrations == map[] && nextId == 0
    {
      this.events := events;
      registrations := map[];
      nextId := 0;
    }

    /** Stores a new, valid registration under its own key with the next id. */
    method Add(reg: RegistrationModel.Registration)
      requires Valid() && RegistrationModel.Valid(reg) && reg.id == nextId
      requires RegistrationModel.KeyOf(reg) !in registrations
      modifies this
      ensures Valid() && events == old(events) && nextId == old(nextId) + 1
      ensures registrations == old(registrations)[RegistrationModel.KeyOf(reg) := reg]
    {
      AddKeepsStoreValid(registrations, nextId, reg);
      registrations := RegistrationModel.Insert(registrations, reg).value;
      nextId := nextId + 1;
    }

    /** `POST`: `body` is `None` when the request body does not parse. */
    method Post(body: Option<RegistrationBody>, now: int) returns (resp: Response)
      requires Valid()
      modifies this
      ensures Valid() && events == old(events)
      ensures resp == Answer(body, events, old(registrations), old(nextId), now)
      ensures body.None? ==> resp == Reply(500, FailureMessage)
      ensures body.Some? && !HasRequiredFields(body.value) ==> resp == Reply(400, MissingFieldsMessage)
      ensures body.Some? && HasRequiredFields(body.value) && EventModel.FindByName(events, FuelAfricaEventName).None? ==>
        resp == Reply(500, FailureMessage)
      ensures resp.status == 409 <==>
        body.Some? && HasRequiredFields(body.value) && EventModel.FindByName(events, FuelAfricaEventName).Some?
        && (EventModel.FindByName(events, FuelAfricaEventName).value.id, body.value.email.value) in old(registrations)
      ensures resp.status == 409 ==> resp.message == AlreadyRegisteredMessage
      ensures resp.status != 201 ==> registrations == old(registrations) && nextId == old(nextId)
      ensures resp.status == 201 ==>
        body.Some? && EventModel.FindByName(events, FuelAfricaEventName).Some?
        && var event := EventModel.FindByName(events, FuelAfricaEventName).value;
           var created := RegistrationModel.Create(RecordInput(body.value, event, now), old(nextId), now);
           created.Ok?
           && registrations == old(registrations)[(event.id, body.value.email.value) := created.value]
           && resp == Response(201, SuccessMessage, Some(old(nextId)), Some(event.id), Some(event.name))
      ensures body.Some? && HasRequiredFields(body.value) && EventModel.FindByName(events, FuelAfricaEventName).Some? ==>
        var event := EventModel.FindByName(events, FuelAfricaEventName).value;
        var created := RegistrationModel.Create(RecordInput(body.value, event, now), old(nextId), now);
        (event.id, body.value.email.value) !in old(registrations) ==>
          (created.Ok? ==> resp.status == 201 && registrations == old(registrations)[(event.id, body.value.email.value) := created.value])
          && (created.Err? ==> resp == Reply(500, FailureMessage))
      ensures resp.status in {201, 400, 409, 500}
    {
      if body.None? {
        return Reply(500, FailureMessage);
      }
      var b := body.value;
      if !HasRequiredFields(b) {
        return Reply(400, MissingFieldsMessage);
      }
      var event := EventModel.FindByName(events, FuelAfricaEventName);
      if event.None? {
        return Reply(500, FailureMessage);
      }
      var key := (event.value.id, b.email.value);
      if key in registrations {
        return Reply(409, AlreadyRegisteredMessage);
      }
      var created := RegistrationModel.Create(RecordInput(b, event.value, now), nextId, now);
      if created.Err? {
        return Reply(500, FailureMessage);
      }
      resp := Response(201, SuccessMessage, Some(nextId), Some(created.value.eventId), Some(created.value.eventName));
      Add(created.value);
    }
  }

  /** A request that passes the field check but whose phone is longer than
      the schema allows is never answered with a 400: the route answers 500
      when the e-mail is free for the event (409 when it is taken). */
  lemma LongPhoneIsServerError(b: RegistrationBody, events: seq<EventModel.Event>,
                               store: map<RegistrationModel.RegistrationKey, RegistrationModel.Registration>,
                               nextId: RegistrationModel.ObjectId, now: int)
    requires HasRequiredFields(b) && |b.phone.value| > RegistrationModel.PhoneMaxLength
    ensures Answer(Some(b), events, store, nextId, now).status != 400
    ensures EventModel.FindByName(events, FuelAfricaEventName).Some? ==>
      var event := EventModel.FindByName(events, FuelAfricaEventName).value;
      (event.id, b.email.value) !in store ==> Answer(Some(b), events, store, nextId, now) == Reply(500, FailureMessage)
  {
    var event := EventModel.FindByName(events, FuelAfricaEventName);
    if event.Some? {
      assert "phone" in RegistrationModel.ValidationErrors(RecordInput(b, event.value, now));
    }
  }

  /** Of the four fields the route requires, the schema requires only name
      and e-mail: a body without phone and country would pass the schema
      for a valid event, yet the route answers 400. */
  lemma RouteRequiresMoreThanSchema(event: EventModel.Event, now: int)
    requires EventModel.Valid(event)
    ensures var b := RegistrationBody(Some("Ada"), Some("ada@example.com"), None, None, None, None, None, None, None, None);
      !HasRequiredFields(b) && RegistrationModel.Create(RecordInput(b, event, now), 0, now).Ok?
  {
    var b := RegistrationBody(Some("Ada"), Some("ada@example.com"), None, None, None, None, None, None, None, None);
    assert RegistrationModel.ValidationErrors(RecordInput(b, event, now)) == {} by {
      var input := RecordInput(b, event, now);
      assert |"Ada"| <= RegistrationModel.NameMaxLength;
      assert |"ada@example.com"| <= RegistrationModel.EmailMaxLength;
    }
  }
}
