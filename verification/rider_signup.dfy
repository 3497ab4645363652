/**
 * The driver registration form (app/RiderSignupScreen.jsx): one form object
 * of six text fields, each input updating its own field, and
 * `handleSignup`, which requires every field and posts the form as is.
 */
module RiderSignupForm {
  import opened Wrappers
  import Js

  /** The six inputs, in screen order. */
  datatype Field = FullName | Email | Username | Password | VehicleType | LicenseNumber

  datatype Form = Form(
    fullName: string,
    email: string,
    username: string,
    password: string,
    vehicleType: string,
    licenseNumber: string)

  /** The form as the screen first holds it: every field empty. */
  const EmptyForm := Form("", "", "", "", "", "")

  function Get(f: Form, field: Field): string {
    match field
    case FullName => f.fullName
    case Email => f.email
    case Username => f.username
    case Password => f.password
    case VehicleType => f.vehicleType
    case LicenseNumber => f.licenseNumber
  }

  /** `setForm({ ...form, field: text })`: that field takes the text, every other field is kept. */
  function SetField(f: Form, field: Field, text: string): (r: Form)
    ensures Get(r, field) == text
    ensures forall other: Field :: other != field ==> Get(r, other) == Get(f, other)
  {
    match field
    case FullName => f.(fullName := text)
    case Email => f.(email := text)
    case Username => f.(username := text)
    case Password => f.(password := text)
    case VehicleType => f.(vehicleType := text)
    case LicenseNumber => f.(licenseNumber := text)
  }

  /** Every field non-empty (whitespace counts as filled). */
  predicate Filled(f: Form) {
    forall field: Field :: Get(f, field) != ""
  }

  /**
   * How the request ended: the request itself threw (with the error's
   * message); an answer came whose body did not parse as JSON, so
   * `response.json()` threw (with the parser's message) before the status
   * was read; or an answer with its ok flag and parsed body.
   */
  datatype Reply =
    | Threw(message: string)
    | Unparsable(okStatus: bool, parseError: string)
    | Answered(ok: bool, data: Js.Value)

  /** An `Alert.alert(title, body)` call; the body may be the server's JSON as it came. */
  datatype Alert = Alert(title: string, body: Js.Value)

  const FillAllFields := Alert("Error", Js.Str("Please fill all fields"))
  const Registered := Alert("Success", Js.Str("Driver registered successfully!"))

  /**
   * `handleSignup`: with any field empty, an error alert and no request;
   * otherwise the form itself is the body. The body is parsed before the
   * status is looked at, so an unparsable body alerts the parse error even on
   * a 2xx status; a parsed ok answer gives the success alert, a parsed non-ok
   * one alerts its body (or "Something went wrong" when falsy), and a thrown
   * request alerts its message.
   */
  function Submit(f: Form, reply: Reply): (r: (Alert, Option<Form>))
    ensures !Filled(f) ==> r == (FillAllFields, None)
    ensures Filled(f) ==> r.1 == Some(f)
    ensures r.0.title == "Success" <==> Filled(f) && reply.Answered? && reply.ok
    ensures r.0.title == "Success" ==> r.0 == Registered
    ensures Filled(f) && reply.Answered? && !reply.ok ==>
      r.0 == Alert("Error", Js.Or(reply.data, Js.Str("Something went wrong")))
    ensures Filled(f) && reply.Threw? ==> r.0 == Alert("Error", Js.Str(reply.message))
    ensures Filled(f) && reply.Unparsable? ==> r.0 == Alert("Error", Js.Str(reply.parseError))
  {
    if !Filled(f) then (FillAllFields, None)
    else
      match reply
      case Threw(message) => (Alert("Error", Js.Str(message)), Some(f))
      case Unparsable(_, parseError) => (Alert("Error", Js.Str(parseError)), Some(f))
      case Answered(ok, data) =>
        if ok then (Registered, Some(f))
        else (Alert("Error", Js.Or(data, Js.Str("Something went wrong"))), Some(f))
  }

  /** A 2xx answer whose body does not parse still ends in the error alert. */
  lemma OkStatusUnparsableBodyAlertsError(f: Form, parseError: string)
    requires Filled(f)
    ensures Submit(f, Unparsable(true, parseError)).0 == Alert("Error", Js.Str(parseError))
    ensures Submit(f, Unparsable(true, parseError)).0.title != "Success"
  {
  }

  /** Submitting the untouched form is always refused. */
  lemma EmptyFormRefused(reply: Reply)
    ensures Submit(EmptyForm, reply) == (FillAllFields, None)
  {
    assert Get(EmptyForm, FullName) == "";
  }

  /** Typing a non-empty value into each of the six inputs, in any state, makes the form submittable. */
  lemma AllInputsTypedIsFilled(f: Form, a: string, b: string, c: string, d: string, e: string, g: string)
    requires a != "" && b != "" && c != "" && d != "" && e != "" && g != ""
    ensures var typed := SetField(SetField(SetField(SetField(SetField(SetField(f,
        FullName, a), Email, b), Username, c), Password, d), VehicleType, e), LicenseNumber, g);
      Filled(typed) && Submit(typed, Threw("")).1 == Some(typed)
  {
  }

  /** Clearing any one field makes the form unsubmittable again. */
  lemma ClearingAnyFieldRefuses(f: Form, field: Field, reply: Reply)
    ensures Submit(SetField(f, field, ""), reply) == (FillAllFields, None)
  {
    assert Get(SetField(f, field, ""), field) == "";
  }

  /** Setting a field twice keeps only the last value, and setting distinct fields commutes. */
  lemma SetFieldLastWins(f: Form, x: Field, y: Field, s: string, t: string)
    ensures SetField(SetField(f, x, s), x, t) == SetField(f, x, t)
    ensures x != y ==> SetField(SetField(f, x, s), y, t) == SetField(SetField(f, y, t), x, s)
  {
  }
}
