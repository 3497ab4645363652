/**
 * The driver sign-in form (app/DriverLogin.jsx). `handleSubmit` clears the
 * previous outcome, validates, raises `loading`, posts the credentials and
 * records either an error text or the returned driver.
 *
 * The handler is split at its one `await` point: `Begin` runs up to the
 * request, `Finish` runs once the answer is in. `Submit` is the two in a row.
 */
module DriverLoginForm {
  import opened Wrappers
  import Text
  import Js

  /** `usernameOrEmail`, `password`, `showPassword`, `loading`, `error` and `driver` (`null` until a login succeeds). */
  datatype FormState = FormState(
    usernameOrEmail: string,
    password: string,
    showPassword: bool,
    loading: bool,
    error: string,
    driver: Js.Value)

  const Initial := FormState("", "", false, false, "", Js.Null)

  /** The JSON body of the login request. */
  datatype Request = Request(usernameOrEmail: string, password: string)

  /**
   * How the request ended: no response; a non-ok status with its text; an ok
   * status whose body parsed as `data`; an ok status whose body did not parse.
   */
  datatype Reply =
    | NetworkFailure
    | NotOk(status: nat, text: string)
    | OkJson(data: Js.Value)
    | OkUnparsable

  const UsernameRequired := "Username or email is required"
  const PasswordRequired := "Password is required"
  const NetworkMessage := "Network or server error. Check backend is running."

  predicate Blank(s: string) {
    Text.Trim(Text.JsWhitespace, s) == []
  }

  /** The text for a non-ok answer: the body text, or the status when the body is empty. */
  function NotOkMessage(status: nat, text: string): (m: string)
    ensures text != "" ==> m == text
    ensures text == "" ==> m == "Login failed (status " + Text.NatToString(status) + ")"
    ensures m != ""
  {
    if text != "" then text else "Login failed (status " + Text.NatToString(status) + ")"
  }

  /**
   * Up to the request: the error and driver are cleared; a blank username,
   * then a blank password, stops with its message and `loading` untouched;
   * otherwise `loading` is raised and the trimmed username is sent with the
   * password as typed.
   */
  function Begin(st: FormState): (r: (FormState, Option<Request>))
    ensures r.0.driver == Js.Null
    ensures r.0.usernameOrEmail == st.usernameOrEmail && r.0.password == st.password
    ensures Blank(st.usernameOrEmail) ==> r.1.None? && r.0.error == UsernameRequired && r.0.loading == st.loading
    ensures !Blank(st.usernameOrEmail) && Blank(st.password) ==>
      r.1.None? && r.0.error == PasswordRequired && r.0.loading == st.loading
    ensures !Blank(st.usernameOrEmail) && !Blank(st.password) ==>
      && r.1 == Some(Request(Text.Trim(Text.JsWhitespace, st.usernameOrEmail), st.password))
      && r.0.loading && r.0.error == ""
  {
    var cleared := st.(error := "", driver := Js.Null);
    if Blank(st.usernameOrEmail) then (cleared.(error := UsernameRequired), None)
    else if Blank(st.password) then (cleared.(error := PasswordRequired), None)
    else (cleared.(loading := true), Some(Request(Text.Trim(Text.JsWhitespace, st.usernameOrEmail), st.password)))
  }

  /**
   * After the answer: `loading` always drops. A non-ok answer sets the error
   * text; a parsed body sets the driver to its `driver` field when truthy,
   * else to the whole body; a `null` body throws on the field read and,
   * like a failed request or an unparsable body, sets the network message.
   */
  function Finish(st: FormState, reply: Reply): (r: FormState)
    ensures !r.loading
    ensures r.usernameOrEmail == st.usernameOrEmail && r.password == st.password
    ensures reply.NotOk? ==> r.error == NotOkMessage(reply.status, reply.text) && r.driver == st.driver
    ensures reply.OkJson? && !Js.Nullish(reply.data) ==>
      r.error == st.error && r.driver == Js.Or(Js.Get(reply.data, "driver"), reply.data)
    ensures reply.NetworkFailure? || reply.OkUnparsable? || (reply.OkJson? && Js.Nullish(reply.data)) ==>
      r.error == NetworkMessage && r.driver == st.driver
  {
    match reply
    case NotOk(status, text) => st.(error := NotOkMessage(status, text), loading := false)
    case OkJson(data) =>
      if Js.Nullish(data) then st.(error := NetworkMessage, loading := false)
      else st.(driver := Js.Or(Js.Get(data, "driver"), data), loading := false)
    case _ => st.(error := NetworkMessage, loading := false)
  }

  /** A whole submit: the validation result, or the request and its outcome. */
  function Submit(st: FormState, reply: Reply): (r: (FormState, Option<Request>))
    ensures r.1.Some? ==> !r.0.loading
    ensures r.1.None? ==> r.0.loading == st.loading && r.0.error != ""
  {
    var (started, request) := Begin(st);
    if request.None? then (started, None) else (Finish(started, reply), request)
  }

  /** Every exit shows exactly one kind of outcome: an error text, a driver, or (for a falsy body) neither. */
  lemma OutcomeExclusive(st: FormState, reply: Reply)
    ensures var r := Submit(st, reply).0;
      && !(r.error != "" && Js.Truthy(r.driver))
      && (r.error == "" <==> Submit(st, reply).1.Some? && reply.OkJson? && !Js.Nullish(reply.data))
      && (reply.OkJson? && Js.Truthy(reply.data) && Submit(st, reply).1.Some? ==> Js.Truthy(r.driver))
  {
  }

  /** An ok body `{ ..., driver: d }` with a truthy `d` stores `d` itself, not the wrapper. */
  lemma WrappedDriverUnwrapped(st: FormState, data: Js.Value)
    requires data.Obj? && "driver" in data.fields && Js.Truthy(data.fields["driver"])
    ensures Finish(st, OkJson(data)).driver == data.fields["driver"]
    ensures Finish(st, OkJson(data)).error == st.error
  {
  }

  /** The username check comes first: with both fields blank only the username message appears. */
  lemma UsernameCheckedFirst(st: FormState, reply: Reply)
    requires Blank(st.usernameOrEmail) && Blank(st.password)
    ensures Submit(st, reply).0.error == UsernameRequired
  {
  }

  /** A whitespace-padded password is sent as typed, so it differs from what the blank test looked at. */
  lemma PasswordSentVerbatim(st: FormState, reply: Reply)
    requires !Blank(st.usernameOrEmail) && !Blank(st.password)
    ensures Submit(st, reply).1.value.password == st.password
    ensures Text.Trim(Text.JsWhitespace, Submit(st, reply).1.value.usernameOrEmail) == Submit(st, reply).1.value.usernameOrEmail
  {
    Text.TrimIdempotent(Text.JsWhitespace, st.usernameOrEmail);
  }
}
