/** The registration form: ten text fields, a client-side check of the four
    required ones, and a submit that posts the form to the Fuel Africa
    registration route and clears it on success. */
module RegistrationModal {
  import opened Js
  import Text
  import RegisterFuelAfricaRoute

  datatype Field = Name | Email | Phone | Country | Location | Gender | Github | TelegramUsername | XHandle | Role

  datatype FormData = FormData(
    name: string, email: string, phone: string, country: string, location: string,
    gender: string, github: string, telegramusername: string, xhandle: string, role: string)

  const EmptyForm := FormData("", "", "", "", "", "", "", "", "", "")

  /** `formData[field]` */
  function Get(f: FormData, field: Field): string {
    match field
    case Name => f.name
    case Email => f.email
    case Phone => f.phone
    case Country => f.country
    case Location => f.location
    case Gender => f.gender
    case Github => f.github
    case TelegramUsername => f.telegramusername
    case XHandle => f.xhandle
    case Role => f.role
  }

  /** `{ ...f, [field]: value }` */
  function Set(f: FormData, field: Field, value: string): (g: FormData)
    ensures Get(g, field) == value
    ensures forall other :: other != field ==> Get(g, other) == Get(f, other)
  {
    match field
    case Name => f.(name := value)
    case Email => f.(email := value)
    case Phone => f.(phone := value)
    case Country => f.(country := value)
    case Location => f.(location := value)
    case Gender => f.(gender := value)
    case Github => f.(github := value)
    case TelegramUsername => f.(telegramusername := value)
    case XHandle => f.(xhandle := value)
    case Role => f.(role := value)
  }

  const RequiredFields: seq<Field> := [Name, Email, Phone, Country]

  /** A field is filled when it is non-empty after trimming. */
  predicate Filled(s: string) {
    Text.Trim(s) != ""
  }

  /** The form the client accepts: name, e-mail, phone and country filled. */
  predicate Complete(f: FormData): (ok: bool)
    ensures ok ==> f.name != "" && f.email != "" && f.phone != "" && f.country != ""
  {
    Filled(f.name) && Filled(f.email) && Filled(f.phone) && Filled(f.country)
  }

  /** Optional fields never decide completeness. */
  lemma OptionalFieldsIrrelevant(f: FormData, field: Field, value: string)
    requires field !in RequiredFields
    ensures Complete(Set(f, field, value)) <==> Complete(f)
  {
  }

  /** The JSON the form posts. */
  function BodyOf(f: FormData): RegisterFuelAfricaRoute.RegistrationBody {
    RegisterFuelAfricaRoute.RegistrationBody(
      Some(f.name), Some(f.email), Some(f.phone), Some(f.country), Some(f.location),
      Some(f.gender), Some(f.github), Some(f.telegramusername), Some(f.xhandle), Some(f.role))
  }

  /** A form the client accepts also passes the route's required-field check. */
  lemma CompleteFormPassesRoute(f: FormData)
    requires Complete(f)
    ensures RegisterFuelAfricaRoute.HasRequiredFields(BodyOf(f))
  {
    assert Text.Trim("") == "";
  }

  /** The converse fails: the route does not trim, so a name of one space
      passes its check though the form refuses it. */
  lemma BlankNamePassesRouteOnly()
    ensures var f := FormData(" ", "a@b.co", "1", "NG", "", "", "", "", "", "");
      !Complete(f) && RegisterFuelAfricaRoute.HasRequiredFields(BodyOf(f))
  {
    assert Text.TrimStart(" ") == "";
  }

  /** The reply to the submit request; only its `ok` flag matters. */
  datatype SubmitReply = Failed | Answered(ok: bool)

  class RegistrationModal {
    var formData: FormData
    var isSubmitting: bool

    constructor()
      ensures formData == EmptyForm && !isSubmitting
    {
      formData := EmptyForm;
      isSubmitting := false;
    }

    /** `validateForm`: walk the required fields, stopping at the first one
        that is empty or blank. */
    method ValidateForm() returns (ok: bool)
      ensures ok <==> Complete(formData)
    {
      var i := 0;
      while i < |RequiredFields|
        invariant 0 <= i <= |RequiredFields|
        invariant forall j :: 0 <= j < i ==> Filled(Get(formData, RequiredFields[j]))
      {
        var value := Get(formData, RequiredFields[i]);
        if value == "" {
          return false;
        }
        if Text.Trim(value) == "" {
          return false;
        }
        i := i + 1;
      }
      assert Filled(Get(formData, RequiredFields[0])) && Filled(Get(formData, RequiredFields[1]));
      assert Filled(Get(formData, RequiredFields[2])) && Filled(Get(formData, RequiredFields[3]));
      return true;
    }

    /** `handleInputChange`: the named field takes the new value. */
    method HandleInputChange(field: Field, value: string)
      modifies this
      ensures Get(formData, field) == value
      ensures forall other :: other != field ==> Get(formData, other) == Get(old(formData), other)
      ensures isSubmitting == old(isSubmitting)
    {
      formData := Set(formData, field, value);
    }

    /** `handleSubmit`: an incomplete form sends nothing; a complete one is
        posted as it stands, and cleared only when the reply is ok. */
    method HandleSubmit(reply: SubmitReply) returns (sent: Option<FormData>)
      modifies this
      ensures sent == (if Complete(old(formData)) then Some(old(formData)) else None)
      ensures formData == (if Complete(old(formData)) && reply == Answered(true) then EmptyForm else old(formData))
      ensures !Complete(old(formData)) ==> isSubmitting == old(isSubmitting)
      ensures Complete(old(formData)) ==> !isSubmitting
    {
      var valid := ValidateForm();
      if !valid {
        return None;
      }
      isSubmitting := true;
      sent := Some(formData);
      if reply == Answered(true) {
        formData := EmptyForm;
      }
      isSubmitting := false;
    }
  }
}
