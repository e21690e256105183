/** The mongoose `Registration` model: its path validators (required,
    maximum length), its defaults, and the unique compound index on
    `(eventId, email)`. Object ids are natural numbers and dates are
    instants given as integers. */
module RegistrationModel {
  import opened Js

  type ObjectId = nat

  const NameMaxLength: nat := 100
  const EmailMaxLength: nat := 254
  const PhoneMaxLength: nat := 15
  const CountryMaxLength: nat := 100
  const LocationMaxLength: nat := 200
  const GenderMaxLength: nat := 20
  const GithubMaxLength: nat := 100
  const TelegramMaxLength: nat := 50
  const XHandleMaxLength: nat := 50
  const RoleMaxLength: nat := 500
  const AddressMaxLength: nat := 200

  /** A stored registration document. */
  datatype Registration = Registration(
    id: ObjectId, eventId: ObjectId, eventName: string, name: string, email: string,
    phone: Option<string>, country: Option<string>, location: Option<string>,
    gender: Option<string>, github: Option<string>, telegramusername: Option<string>,
    xhandle: Option<string>, role: Option<string>, address: Option<string>,
    agreeToNewsletter: bool, registrationDate: int)

  /** What is handed to `Registration.create`; `None` is an absent or `null` path. */
  datatype RegistrationInput = RegistrationInput(
    eventId: Option<ObjectId>, eventName: Option<string>, name: Option<string>, email: Option<string>,
    phone: Option<string>, country: Option<string>, location: Option<string>,
    gender: Option<string>, github: Option<string>, telegramusername: Option<string>,
    xhandle: Option<string>, role: Option<string>, address: Option<string>,
    agreeToNewsletter: Option<bool>, registrationDate: Option<int>)

  /** mongoose's `required` on a String path rejects a missing value and "". */
  predicate RequiredString(s: Option<string>) {
    s.Some? && s.value != ""
  }

  /** `maxlength` only applies to a present value. */
  predicate WithinLength(s: Option<string>, max: nat) {
    s.None? || |s.value| <= max
  }

  /** Every constraint of the schema, stated on a stored document. */
  predicate Valid(r: Registration) {
    r.eventName != ""
    && r.name != "" && |r.name| <= NameMaxLength
    && r.email != "" && |r.email| <= EmailMaxLength
    && WithinLength(r.phone, PhoneMaxLength)
    && WithinLength(r.country, CountryMaxLength)
    && WithinLength(r.location, LocationMaxLength)
    && WithinLength(r.gender, GenderMaxLength)
    && WithinLength(r.github, GithubMaxLength)
    && WithinLength(r.telegramusername, TelegramMaxLength)
    && WithinLength(r.xhandle, XHandleMaxLength)
    && WithinLength(r.role, RoleMaxLength)
    && WithinLength(r.address, AddressMaxLength)
  }

  /** The paths whose validator fails on `input`. */
  function ValidationErrors(input: RegistrationInput): set<string> {
    (if input.eventId.None? then {"eventId"} else {})
    + (if !RequiredString(input.eventName) then {"eventName"} else {})
    + (if !RequiredString(input.name) || !WithinLength(input.name, NameMaxLength) then {"name"} else {})
    + (if !RequiredString(input.email) || !WithinLength(input.email, EmailMaxLength) then {"email"} else {})
    + (if !WithinLength(input.phone, PhoneMaxLength) then {"phone"} else {})
    + (if !WithinLength(input.country, CountryMaxLength) then {"country"} else {})
    + (if !WithinLength(input.location, LocationMaxLength) then {"location"} else {})
    + (if !WithinLength(input.gender, GenderMaxLength) then {"gender"} else {})
    + (if !WithinLength(input.github, GithubMaxLength) then {"github"} else {})
    + (if !WithinLength(input.telegramusername, TelegramMaxLength) then {"telegramusername"} else {})
    + (if !WithinLength(input.xhandle, XHandleMaxLength) then {"xhandle"} else {})
    + (if !WithinLength(input.role, RoleMaxLength) then {"role"} else {})
    + (if !WithinLength(input.address, AddressMaxLength) then {"address"} else {})
  }

  /** Document construction and validation: defaults fill absent
      `agreeToNewsletter` (false) and `registrationDate` (now); a document
      that fails any validator is rejected with the failing paths. */
  function Create(input: RegistrationInput, id: ObjectId, now: int): (r: Result<Registration, set<string>>)
    ensures r.Ok? <==> ValidationErrors(input) == {}
    ensures r.Ok? ==> Valid(r.value) && r.value.id == id
    ensures r.Ok? ==> r.value.agreeToNewsletter == input.agreeToNewsletter.GetOr(false)
    ensures r.Ok? ==> r.value.registrationDate == input.registrationDate.GetOr(now)
    ensures r.Ok? ==> InputOf(r.value) == input.(agreeToNewsletter := Some(r.value.agreeToNewsletter),
                                                  registrationDate := Some(r.value.registrationDate))
    ensures r.Err? ==> r.error != {}
  {
    var errors := ValidationErrors(input);
    if errors != {} then Err(errors)
    else
      assert "eventId" !in errors && "eventName" !in errors && "name" !in errors && "email" !in errors;
      Ok(Registration(id, input.eventId.value, input.eventName.value, input.name.value, input.email.value,
                      input.phone, input.country, input.location, input.gender, input.github,
                      input.telegramusername, input.xhandle, input.role, input.address,
                      input.agreeToNewsletter.GetOr(false), input.registrationDate.GetOr(now)))
  }

  /** The input that describes a stored document path for path. */
  function InputOf(r: Registration): RegistrationInput {
    RegistrationInput(Some(r.eventId), Some(r.eventName), Some(r.name), Some(r.email), r.phone, r.country,
                      r.location, r.gender, r.github, r.telegramusername, r.xhandle, r.role, r.address,
                      Some(r.agreeToNewsletter), Some(r.registrationDate))
  }

  /** The validators accept exactly the valid documents: re-creating a
      document from its own paths succeeds, and gives it back, precisely
      when it satisfies `Valid`. */
  lemma CreateAcceptsExactlyValid(r: Registration, now: int)
    ensures Create(InputOf(r), r.id, now).Ok? <==> Valid(r)
    ensures Valid(r) ==> Create(InputOf(r), r.id, now) == Ok(r)
  {
    var errors := ValidationErrors(InputOf(r));
    if !Valid(r) {
      if r.eventName == "" { assert "eventName" in errors; }
      else if r.name == "" || |r.name| > NameMaxLength { assert "name" in errors; }
      else if r.email == "" || |r.email| > EmailMaxLength { assert "email" in errors; }
      else if !WithinLength(r.phone, PhoneMaxLength) { assert "phone" in errors; }
      else if !WithinLength(r.country, CountryMaxLength) { assert "country" in errors; }
      else if !WithinLength(r.location, LocationMaxLength) { assert "location" in errors; }
      else if !WithinLength(r.gender, GenderMaxLength) { assert "gender" in errors; }
      else if !WithinLength(r.github, GithubMaxLength) { assert "github" in errors; }
      else if !WithinLength(r.telegramusername, TelegramMaxLength) { assert "telegramusername" in errors; }
      else if !WithinLength(r.xhandle, XHandleMaxLength) { assert "xhandle" in errors; }
      else if !WithinLength(r.role, RoleMaxLength) { assert "role" in errors; }
      else { assert "address" in errors; }
    }
  }

  /** The unique index's key. */
  type RegistrationKey = (ObjectId, string)

  function KeyOf(r: Registration): RegistrationKey {
    (r.eventId, r.email)
  }

  /** A store in which each document sits under its own `(eventId, email)`. */
  ghost predicate KeyedByEventAndEmail(store: map<RegistrationKey, Registration>) {
    forall k :: k in store ==> KeyOf(store[k]) == k
  }

  /** In such a store no two documents share an event and an e-mail. */
  lemma KeyedStoreUnique(store: map<RegistrationKey, Registration>, a: RegistrationKey, b: RegistrationKey)
    requires KeyedByEventAndEmail(store)
    requires a in store && b in store && a != b
    ensures KeyOf(store[a]) != KeyOf(store[b])
  {
  }

  /** An insert under the unique index: a duplicate key error when a
      document with the same event and e-mail exists. */
  function Insert(store: map<RegistrationKey, Registration>, r: Registration): (s: Option<map<RegistrationKey, Registration>>)
    ensures s.None? <==> KeyOf(r) in store
    ensures s.Some? ==> s.value.Keys == store.Keys + {KeyOf(r)} && |s.value| == |store| + 1
    ensures s.Some? ==> s.value[KeyOf(r)] == r && forall k :: k in store ==> s.value[k] == store[k]
  {
    if KeyOf(r) in store then None else Some(store[KeyOf(r) := r])
  }

  /** Inserting keeps every document under its own key. */
  lemma InsertKeepsKeyed(store: map<RegistrationKey, Registration>, r: Registration)
    requires KeyedByEventAndEmail(store) && Insert(store, r).Some?
    ensures KeyedByEventAndEmail(Insert(store, r).value)
  {
  }
}
