/**
 * The rider sign-up screen (app/SignupScreen.jsx): five text fields, a
 * gender button cycling Male/Female, and `handleSignup`, which posts the
 * form to the signup endpoint and alerts the outcome.
 */
module SignupForm {
  import opened Wrappers
  import UserStore
  import AuthControllers

  datatype Form = Form(name: string, email: string, password: string, phone: string, gender: string)

  const InitialForm := Form("", "", "", "", "")

  /** The JSON body: the form's fields, with `phone` sent as `phoneNumber`. */
  datatype Payload = Payload(name: string, email: string, password: string, phoneNumber: string, gender: string)

  /** How the request ended: it threw (with the error's text), or an answer with its ok flag and body text. */
  datatype Reply = Threw(error: string) | Answered(ok: bool, text: string)

  /** One press of the sign-up button: the alert shown, the request sent, whether /home follows. */
  datatype SignupStep = SignupStep(alert: string, request: Option<Payload>, goHome: bool)

  const FillAllFields := "Please fill all fields"
  const SignupSucceeded := "Signup successful!"

  /** `!name || !email || ...`: some field is the empty string. Whitespace counts as filled. */
  predicate AnyEmpty(f: Form) {
    f.name == "" || f.email == "" || f.password == "" || f.phone == "" || f.gender == ""
  }

  function ToPayload(f: Form): Payload {
    Payload(f.name, f.email, f.password, f.phone, f.gender)
  }

  function FromPayload(p: Payload): Form {
    Form(p.name, p.email, p.password, p.phoneNumber, p.gender)
  }

  /** The payload carries the form's values unchanged; only the phone field is renamed. */
  lemma PayloadRoundTrip(f: Form, p: Payload)
    ensures FromPayload(ToPayload(f)) == f
    ensures ToPayload(FromPayload(p)) == p
    ensures ToPayload(f).phoneNumber == f.phone
  {
  }

  /**
   * `handleSignup`: an empty field stops with an alert and no request;
   * otherwise the payload is sent; a non-ok answer alerts its body text and
   * stays; an ok answer alerts success and moves to /home; a thrown request
   * alerts "Network Error: " and the error.
   */
  function Submit(f: Form, reply: Reply): (r: SignupStep)
    ensures AnyEmpty(f) ==> r == SignupStep(FillAllFields, None, false)
    ensures !AnyEmpty(f) ==> r.request == Some(ToPayload(f))
    ensures r.goHome <==> !AnyEmpty(f) && reply.Answered? && reply.ok
    ensures r.goHome ==> r.alert == SignupSucceeded
    ensures !AnyEmpty(f) && reply.Answered? && !reply.ok ==> r.alert == reply.text
    ensures !AnyEmpty(f) && reply.Threw? ==> r.alert == "Network Error: " + reply.error
  {
    if AnyEmpty(f) then SignupStep(FillAllFields, None, false)
    else
      var req := Some(ToPayload(f));
      match reply
      case Threw(e) => SignupStep("Network Error: " + e, req, false)
      case Answered(ok, text) =>
        if !ok then SignupStep(text, req, false) else SignupStep(SignupSucceeded, req, true)
  }

  /** Values of spaces pass the check: there is no trimming here. */
  lemma WhitespaceFieldsAccepted(reply: Reply)
    ensures Submit(Form(" ", " ", " ", " ", " "), reply).request.Some?
  {
  }

  /** An untouched form is always refused. */
  lemma InitialFormRefused(reply: Reply)
    ensures Submit(InitialForm, reply) == SignupStep(FillAllFields, None, false)
  {
  }

  /** The gender button: "Male" becomes "Female", anything else becomes "Male". */
  function ToggleGender(g: string): (r: string)
    ensures r == "Male" || r == "Female"
    ensures r == "Female" <==> g == "Male"
  {
    if g == "Male" then "Female" else "Male"
  }

  /** After the first press the button alternates between the two values. */
  lemma ToggleGenderAlternates(g: string)
    ensures ToggleGender(ToggleGender(ToggleGender(g))) == ToggleGender(g)
    ensures g == "Male" || g == "Female" ==> ToggleGender(ToggleGender(g)) == g
  {
  }

  /** The button label: the gender, or the placeholder "Gender" while none is chosen. */
  function GenderLabel(g: string): (r: string)
    ensures r != ""
    ensures g != "" ==> r == g
  {
    if g != "" then g else "Gender"
  }

  /** Once pressed, the gender field is filled, so the form's check no longer fails on it. */
  lemma ToggledGenderFilled(f: Form)
    ensures f.(gender := ToggleGender(f.gender)).gender != ""
    ensures GenderLabel(ToggleGender(f.gender)) == ToggleGender(f.gender)
  {
  }

  /** The columns the signup controller reads from the body; the phone and gender are not among them. */
  function AsNewUser(p: Payload): UserStore.NewUser {
    UserStore.NewUser(Some(p.name), Some(p.email), Some(p.password))
  }

  /** Submitting the same form twice: the second request is refused for its email and saves nothing. */
  lemma SecondSubmitRefused(st: UserStore.Store, f: Form)
    ensures var once := AuthControllers.Signup(st, AsNewUser(ToPayload(f))).store;
      AuthControllers.Signup(once, AsNewUser(ToPayload(f))) == AuthControllers.SignupResult(once, AuthControllers.EmailTaken)
  {
    var n := AsNewUser(ToPayload(f));
    var once := AuthControllers.Signup(st, n).store;
    if !UserStore.ExistsByEmail(st, n.email) {
      assert once.users[|st.users|].email == n.email;
    }
    assert UserStore.ExistsByEmail(once, n.email);
  }
}
